/**
 Messages do not stay in a message buffer: once a flush is started with a token to be had it delivers, left
 alone the buffer comes to rest, and after as many rounds of the flusher as there are messages all of them
 are delivered.
 */
module BufferProgress {
  import opened BufferCore
  import opened Sums

  // ---------------------------------------------------------------- what starts a flush

  /** A step starts a flush exactly if it is one of these four. */
  ghost predicate StartsFlush(cfg: Config, s: State, m: Move) {
    match m
    case Tick => s.channel != []
    case Notify(_) => cfg.immediate
    case StopFlusher => cfg.drainOnShutdown
    case CheckAfterRelease => s.channel != []
    case _ => false
  }

  lemma FlushStartsExactly(cfg: Config, s: State, m: Move, s': State)
    requires Steps(cfg, s, m, s')
    ensures if StartsFlush(cfg, s, m) then s'.flushes == s.flushes + [Starting] else |s'.flushes| == |s.flushes|
    ensures m.Tick? ==> (s'.flusher.Parking? <==> s.channel == [])
    ensures m.Notify? ==> s'.flusher.Running?
  {}

  // ---------------------------------------------------------------- steps that need nobody from outside

  /** Everything but new messages, ticks of the flusher's clock, full-channel signals and shutdown. */
  predicate Internal(m: Move) {
    !m.Produce? && !m.Tick? && !m.SignalCapacity? && !m.StopFlusher? && !m.StopReleaser?
  }

  ghost predicate Proceeds(cfg: Config, s: State, s': State) {
    exists m: Move :: Internal(m) && Steps(cfg, s, m, s')
  }

  ghost predicate ProceedsAt(cfg: Config, run: seq<State>, i: int)
    requires 0 <= i < |run| - 1
  {
    Proceeds(cfg, run[i], run[i + 1])
  }

  ghost predicate RunsOn(cfg: Config, run: seq<State>) {
    |run| > 0 && forall i | 0 <= i < |run| - 1 :: ProceedsAt(cfg, run, i)
  }

  lemma StepOn(cfg: Config, run: seq<State>, n: nat, next: nat)
    requires RunsOn(cfg, run) && next == n + 1 && next < |run|
    ensures Proceeds(cfg, run[n], run[next])
  {
    assert ProceedsAt(cfg, run, n);
  }

  /** Nothing happens until the clock ticks or somebody comes. */
  ghost predicate AtRest(cfg: Config, s: State) { forall m: Move | Internal(m) :: !Enabled(cfg, s, m) }

  ghost predicate Alive(cfg: Config, s: State) {
    && Inv(cfg, s) && cfg.capacity > 0 && cfg.maxConcurrency > 0
    && !s.flusher.FlusherStopped? && !s.releaser.ReleaserStopped?
  }

  // ---------------------------------------------------------------- coming to rest

  function FlushWeight(f: Flush): int {
    match f
    case Starting => 9
    case Draining(items) => 8 + |items|
    case Handing(items) => 7 + |items|
    case Ended => 0
  }

  function ProducerWeight(p: Producer): int {
    match p case Filling(_) => 13 case Notifying => 10 case Released => 0
  }

  function ReleaserWeight(r: ReleaserPc): int {
    match r
    case Waiting => 0
    case Delaying => 4
    case Giving(early) => if early then 11 else 1
    case Checking => 10
    case ReleaserStopped(_) => 0
  }

  /** What the messages, producers and flushes may still do. */
  function Load(s: State): int {
    2 * |s.channel| + Sum(s.producers, ProducerWeight) + Sum(s.flushes, FlushWeight)
  }

  /** What the flusher and the releaser may still do. */
  function Control(s: State): int {
    (if s.flusher.Parking? then 1 else 0) + 6 * s.releasing + 5 * s.releases + ReleaserWeight(s.releaser)
    + (if s.capacityRelease then 8 else 0)
  }

  function Weight(s: State): int { Load(s) + Control(s) }

  lemma {:induction false} FlushWeighsLess(s: State, f: nat, x: Flush, s': State)
    requires f < |s.flushes| && s'.flushes == s.flushes[f := x] && s'.producers == s.producers
    requires s'.flusher == s.flusher && s'.releases == s.releases && s'.releaser == s.releaser
    requires s'.capacityRelease == s.capacityRelease
    requires 2 * |s'.channel| + FlushWeight(x) + 6 * s'.releasing
           < 2 * |s.channel| + FlushWeight(s.flushes[f]) + 6 * s.releasing
    ensures Weight(s') < Weight(s)
  {
    SumUpdate(s.flushes, f, x, FlushWeight);
  }

  lemma {:induction false} EnqueueWeighsLess(s: State, p: nat, s': State)
    requires p < |s.producers| && s.producers[p].Filling? && s'.producers == s.producers[p := Notifying]
    requires |s'.channel| == |s.channel| + 1 && s'.flushes == s.flushes && Control(s') == Control(s)
    ensures Weight(s') < Weight(s)
  {
    SumUpdate(s.producers, p, Notifying, ProducerWeight);
  }

  lemma {:induction false} NotifyWeighsLess(s: State, p: nat, s': State)
    requires p < |s.producers| && s.producers[p].Notifying? && s'.producers == s.producers[p := Released]
    requires s'.channel == s.channel && (s'.flushes == s.flushes || s'.flushes == s.flushes + [Starting])
    requires Control(s') <= Control(s)
    ensures Weight(s') < Weight(s)
  {
    SumUpdate(s.producers, p, Released, ProducerWeight);
    SumAppend(s.flushes, Starting, FlushWeight);
  }

  lemma {:induction false} ControlWeighsLess(s: State, s': State)
    requires s'.channel == s.channel && s'.producers == s.producers
    requires || (s'.flushes == s.flushes && Control(s') < Control(s))
             || (s'.flushes == s.flushes + [Starting] && Control(s') + 9 < Control(s))
    ensures Weight(s') < Weight(s)
  {
    SumAppend(s.flushes, Starting, FlushWeight);
  }

  lemma {:induction false} InternalWeighsLess(cfg: Config, s: State, m: Move, s': State)
    requires Internal(m) && Steps(cfg, s, m, s')
    ensures Weight(s') < Weight(s)
  {
    match m
    case TakeToken(f) => FlushWeighsLess(s, f, s'.flushes[f], s');
    case DrainOne(f) => FlushWeighsLess(s, f, s'.flushes[f], s');
    case EndDrain(f) => FlushWeighsLess(s, f, s'.flushes[f], s');
    case HandOver(f) => FlushWeighsLess(s, f, s'.flushes[f], s');
    case Enqueue(p) => EnqueueWeighsLess(s, p, s');
    case Notify(p) => NotifyWeighsLess(s, p, s');
    case _ => ControlWeighsLess(s, s');
  }

  lemma {:induction false} WeightNonNegative(s: State)
    ensures Weight(s) >= 0
  {
    if s.producers != [] {
      SumTerm(s.producers, 0, ProducerWeight);
    }
    if s.flushes != [] {
      SumTerm(s.flushes, 0, FlushWeight);
    }
  }

  // ---------------------------------------------------------------- a flush that will deliver

  /** A flush with something to deliver, or one that is about to get a token while messages wait. */
  ghost predicate Promises(cfg: Config, s: State, x: Flush) {
    match x
    case Starting => s.tokens < cfg.maxConcurrency && s.channel != []
    case Draining(items) => items != [] || s.channel != []
    case Handing(items) => items != []
    case Ended => false
  }

  ghost predicate Promising(cfg: Config, s: State) { exists f | 0 <= f < |s.flushes| :: Promises(cfg, s, s.flushes[f]) }

  /** A flush that is started with a token to be had, while messages wait, promises to deliver. */
  lemma StartedFlushPromises(cfg: Config, s: State, m: Move, s': State)
    requires Steps(cfg, s, m, s') && StartsFlush(cfg, s, m) && s.channel != [] && s.tokens < cfg.maxConcurrency
    ensures Promising(cfg, s')
  {
    assert s'.flushes[|s.flushes|] == Starting;
  }

  /** The step keeps the promise of flush `f`, hands another flush its message or its token, or delivers. */
  lemma PromiseKept(cfg: Config, s: State, m: Move, s': State, f: nat)
    requires Alive(cfg, s) && Internal(m) && Steps(cfg, s, m, s') && f < |s.flushes| && Promises(cfg, s, s.flushes[f])
    ensures |s'.delivered| > |s.delivered| || Promising(cfg, s')
  {
    if m.DrainOne? || m.TakeToken? || m.EndDrain? {
      var g := m.f;
      assert g != f ==> s'.flushes[f] == s.flushes[f];
      if Promises(cfg, s', s'.flushes[g]) {
      } else {
        assert Promises(cfg, s', s'.flushes[f]);
      }
    } else if !m.HandOver? {
      assert s'.flushes[f] == s.flushes[f];
      assert Promises(cfg, s', s'.flushes[f]);
    } else if m.f != f {
      assert s'.flushes[f] == s.flushes[f];
      assert Promises(cfg, s', s'.flushes[f]);
    }
  }

  // ---------------------------------------------------------------- runs

  function IsFilling(p: Producer): int { if p.Filling? then 1 else 0 }

  /** Messages that a producer still holds or that are not delivered yet. */
  function Undelivered(s: State): int { Sum(s.producers, IsFilling) + |s.enqueued| - |s.delivered| }

  lemma StaysAlive(cfg: Config, s: State, m: Move, s': State)
    requires Alive(cfg, s) && (Internal(m) || m.Tick?) && Steps(cfg, s, m, s')
    ensures Alive(cfg, s')
  {
    StepKeeps(cfg, s, m, s');
  }

  lemma ProducersAfter(cfg: Config, s: State, m: Move, s': State)
    requires (Internal(m) || m.Tick?) && Steps(cfg, s, m, s')
    ensures Sum(s'.producers, IsFilling) == Sum(s.producers, IsFilling) - (if m.Enqueue? then 1 else 0)
  {
    if m.Enqueue? || m.Notify? {
      SumUpdate(s.producers, m.p, s'.producers[m.p], IsFilling);
    } else {
      assert s'.producers == s.producers;
    }
  }

  lemma StepCounts(cfg: Config, s: State, m: Move, s': State)
    requires (Internal(m) || m.Tick?) && Steps(cfg, s, m, s')
    ensures |s.delivered| <= |s'.delivered|
    ensures Undelivered(s') == Undelivered(s) - (|s'.delivered| - |s.delivered|)
  {
    ProducersAfter(cfg, s, m, s');
  }

  lemma StepConserves(cfg: Config, s: State, m: Move, s': State)
    requires Alive(cfg, s) && (Internal(m) || m.Tick?) && Steps(cfg, s, m, s')
    ensures Alive(cfg, s') && |s.delivered| <= |s'.delivered|
    ensures Undelivered(s') == Undelivered(s) - (|s'.delivered| - |s.delivered|)
  {
    StaysAlive(cfg, s, m, s');
    StepCounts(cfg, s, m, s');
  }

  /** In `steps` steps nothing is lost, and the weight goes down by as much at least. */
  ghost predicate CountsOn(s: State, s': State, steps: int) {
    && |s.delivered| <= |s'.delivered| && steps <= Weight(s) - Weight(s')
    && Undelivered(s') == Undelivered(s) - (|s'.delivered| - |s.delivered|)
  }

  lemma CountsAdd(a: State, b: State, c: State, m: int, n: int)
    requires CountsOn(a, b, m) && CountsOn(b, c, 1) && n == m + 1
    ensures CountsOn(a, c, n)
  {}

  /** One step of a run that is left alone. */
  lemma {:induction false} RunStep(cfg: Config, s: State, s': State)
    requires Alive(cfg, s) && Proceeds(cfg, s, s')
    ensures Alive(cfg, s') && CountsOn(s, s', 1)
    ensures Promising(cfg, s) ==> |s'.delivered| > |s.delivered| || Promising(cfg, s')
  {
    var m: Move :| Internal(m) && Steps(cfg, s, m, s');
    StepConserves(cfg, s, m, s');
    InternalWeighsLess(cfg, s, m, s');
    if Promising(cfg, s) {
      var f :| 0 <= f < |s.flushes| && Promises(cfg, s, s.flushes[f]);
      PromiseKept(cfg, s, m, s', f);
    }
  }

  lemma {:induction false} RunAlive(cfg: Config, run: seq<State>, i: nat)
    requires RunsOn(cfg, run) && i < |run| && Alive(cfg, run[0])
    ensures Alive(cfg, run[i])
  {
    if i > 0 {
      RunAlive(cfg, run, i - 1);
      StepOn(cfg, run, i - 1, i);
      RunStep(cfg, run[i - 1], run[i]);
    }
  }

  lemma {:induction false} OneStepCounts(cfg: Config, run: seq<State>, n: nat, next: nat)
    requires RunsOn(cfg, run) && next == n + 1 && next < |run| && Alive(cfg, run[0])
    ensures CountsOn(run[n], run[next], 1)
  {
    RunAlive(cfg, run, n);
    StepOn(cfg, run, n, next);
    RunStep(cfg, run[n], run[next]);
  }

  lemma {:induction false} RunCounts(cfg: Config, run: seq<State>, i: nat)
    requires RunsOn(cfg, run) && i < |run| && Alive(cfg, run[0])
    ensures CountsOn(run[0], run[i], i)
  {
    if i > 0 {
      RunCounts(cfg, run, i - 1);
      OneStepCounts(cfg, run, i - 1, i);
      CountsAdd(run[0], run[i - 1], run[i], i - 1, i);
    }
  }

  /** Left alone, the buffer comes to rest after boundedly many steps. */
  lemma ComesToRest(cfg: Config, run: seq<State>)
    requires RunsOn(cfg, run) && Alive(cfg, run[0])
    ensures |run| - 1 <= Weight(run[0])
  {
    RunCounts(cfg, run, |run| - 1);
    WeightNonNegative(run[|run| - 1]);
  }

  lemma {:induction false} PromiseLasts(cfg: Config, run: seq<State>, i: nat)
    requires RunsOn(cfg, run) && i < |run| && Alive(cfg, run[0]) && Promising(cfg, run[0])
    ensures |run[i].delivered| > |run[0].delivered| || Promising(cfg, run[i])
  {
    if i > 0 {
      PromiseLasts(cfg, run, i - 1);
      RunAlive(cfg, run, i - 1);
      RunCounts(cfg, run, i - 1);
      StepOn(cfg, run, i - 1, i);
      RunStep(cfg, run[i - 1], run[i]);
    }
  }

  // ---------------------------------------------------------------- at rest

  lemma FlushesAreOver(cfg: Config, s: State, f: nat)
    requires AtRest(cfg, s) && f < |s.flushes|
    ensures s.flushes[f].Ended?
  {
    assert !Enabled(cfg, s, TakeToken(f)) && !Enabled(cfg, s, HandOver(f));
    assert !Enabled(cfg, s, DrainOne(f)) && !Enabled(cfg, s, EndDrain(f));
  }

  lemma NothingInFlight(cfg: Config, s: State)
    requires AtRest(cfg, s)
    ensures Sum(s.flushes, IsRunning) == 0 && InFlight(s.flushes) == []
  {
    forall x | x in s.flushes ensures x.Ended? {
      var f: nat :| f < |s.flushes| && s.flushes[f] == x;
      FlushesAreOver(cfg, s, f);
    }
    SumIsZero(s.flushes, IsRunning);
    InFlightOfNone(s.flushes);
  }

  lemma TokensAreBack(cfg: Config, s: State)
    requires Alive(cfg, s) && AtRest(cfg, s)
    ensures s.tokens == 0 && s.releaser.Waiting?
  {
    NothingInFlight(cfg, s);
    assert !Enabled(cfg, s, QueueRelease) && !Enabled(cfg, s, TakeRelease) && !Enabled(cfg, s, ReleaseOnTime);
    assert !Enabled(cfg, s, GiveToken) && !Enabled(cfg, s, CheckAfterRelease);
  }

  lemma NobodyNotifies(cfg: Config, s: State)
    requires Alive(cfg, s) && AtRest(cfg, s)
    ensures s.flusher.Running? || s.flusher.Parked?
    ensures Sum(s.producers, IsNotifying) == 0
    ensures s.channel == [] ==> Sum(s.producers, IsFilling) == 0
  {
    assert !Enabled(cfg, s, Park);
    forall x | x in s.producers ensures !x.Notifying? && (s.channel == [] ==> !x.Filling?) {
      var p: nat :| p < |s.producers| && s.producers[p] == x;
      assert !Enabled(cfg, s, Notify(p)) && !Enabled(cfg, s, Enqueue(p));
    }
    SumIsZero(s.producers, IsNotifying);
    if s.channel == [] {
      SumIsZero(s.producers, IsFilling);
    }
  }

  lemma ConservedCounts(s: State)
    requires Conserved(s)
    ensures |s.enqueued| == |s.delivered| + |InFlight(s.flushes)| + |s.channel|
  {
    assert |multiset(s.enqueued)| == |s.enqueued|;
  }

  /** At rest with an empty channel everything is delivered; a parked buffer at rest is empty. */
  lemma RestMeansDelivered(cfg: Config, s: State)
    requires Alive(cfg, s) && AtRest(cfg, s)
    ensures s.flusher.Parked? ==> s.channel == []
    ensures s.channel == [] <==> Undelivered(s) == 0
    ensures s.channel == [] ==> multiset(s.delivered) == multiset(s.enqueued)
    ensures s.channel != [] ==> Enabled(cfg, s, Tick)
  {
    NothingInFlight(cfg, s);
    NobodyNotifies(cfg, s);
    ConservedCounts(s);
    if s.producers != [] {
      SumTerm(s.producers, 0, IsFilling);
    }
  }

  // ---------------------------------------------------------------- rounds of the flusher

  /** The flusher's clock ticks at rest, and the buffer runs on until it rests again. */
  ghost predicate Round(cfg: Config, q: State, q': State) {
    exists run :: RoundBy(cfg, q, run, q')
  }

  ghost predicate RoundBy(cfg: Config, q: State, run: seq<State>, q': State) {
    && AtRest(cfg, q) && RunsOn(cfg, run) && Steps(cfg, q, Tick, run[0])
    && q' == run[|run| - 1] && AtRest(cfg, q')
  }

  lemma NoPromiseAtRest(cfg: Config, s: State)
    requires AtRest(cfg, s)
    ensures !Promising(cfg, s)
  {
    forall f | 0 <= f < |s.flushes| ensures !Promises(cfg, s, s.flushes[f]) {
      FlushesAreOver(cfg, s, f);
    }
  }

  /** Every round delivers at least one message while any is left. */
  lemma RoundDelivers(cfg: Config, q: State, q': State)
    requires Alive(cfg, q) && Round(cfg, q, q')
    ensures Alive(cfg, q') && AtRest(cfg, q')
    ensures Undelivered(q') <= Undelivered(q) && (Undelivered(q) != 0 ==> Undelivered(q') < Undelivered(q))
  {
    var run :| RoundBy(cfg, q, run, q');
    var n := |run| - 1;
    StepConserves(cfg, q, Tick, run[0]);
    RunAlive(cfg, run, n);
    RunCounts(cfg, run, n);
    if Undelivered(q) != 0 {
      RestMeansDelivered(cfg, q);
      TokensAreBack(cfg, q);
      StartedFlushPromises(cfg, q, Tick, run[0]);
      PromiseLasts(cfg, run, n);
      NoPromiseAtRest(cfg, q');
    }
  }

  ghost predicate RoundAt(cfg: Config, qs: seq<State>, i: int)
    requires 0 <= i < |qs| - 1
  {
    Round(cfg, qs[i], qs[i + 1])
  }

  /** After as many rounds as messages were left, nothing is left. */
  lemma {:induction false} EveryMessageIsDelivered(cfg: Config, qs: seq<State>, i: nat)
    requires i < |qs| && Alive(cfg, qs[0]) && AtRest(cfg, qs[0]) && forall k | 0 <= k < |qs| - 1 :: RoundAt(cfg, qs, k)
    ensures Alive(cfg, qs[i]) && AtRest(cfg, qs[i])
    ensures Undelivered(qs[i]) == 0 || Undelivered(qs[i]) <= Undelivered(qs[0]) - i
    ensures i >= Undelivered(qs[0]) ==> multiset(qs[i].delivered) == multiset(qs[i].enqueued)
  {
    if i > 0 {
      EveryMessageIsDelivered(cfg, qs, i - 1);
      assert RoundAt(cfg, qs, i - 1);
      RoundDelivers(cfg, qs[i - 1], qs[i]);
    }
    LeftNonNegative(cfg, qs[i]);
    RestMeansDelivered(cfg, qs[i]);
  }

  lemma LeftNonNegative(cfg: Config, s: State)
    requires Alive(cfg, s)
    ensures Undelivered(s) >= 0
  {
    ConservedCounts(s);
    if s.producers != [] {
      SumTerm(s.producers, 0, IsFilling);
    }
  }
}
