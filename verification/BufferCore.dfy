/**
 One message buffer: producers enqueue into a bounded channel and then announce themselves on an
 unbuffered notifier, a flusher parks when the channel is empty, flushes run under a semaphore, and a
 releaser gives their tokens back after the flush interval.

 Every channel operation is one `Move`; a list of moves is one interleaving of the goroutines.
 */
module BufferCore {
  import opened Sums

  type Msg = nat

  /** `capacity` is both the channel's size and the largest batch. */
  datatype Config = Config(capacity: nat, maxConcurrency: nat, immediate: bool, drainOnShutdown: bool)

  datatype Producer = Filling(msg: Msg) | Notifying | Released

  datatype FlusherPc = Running | Parking | Parked | FlusherStopped

  datatype Flush = Starting | Draining(items: seq<Msg>) | Handing(items: seq<Msg>) | Ended

  datatype ReleaserPc = Waiting | Delaying | Giving(early: bool) | Checking | ReleaserStopped(held: bool)

  datatype State = State(
    channel: seq<Msg>,
    producers: seq<Producer>,
    capacityRelease: bool,
    flusher: FlusherPc,
    flushes: seq<Flush>,
    tokens: nat,
    releasing: nat,
    releases: nat,
    releaser: ReleaserPc,
    enqueued: seq<Msg>,
    delivered: seq<Msg>)

  const Init := State([], [], false, Running, [], 0, 0, 0, Waiting, [], [])

  datatype Move =
    | Produce(msg: Msg)
    | SignalCapacity(p: nat)
    | Enqueue(p: nat)
    | Notify(p: nat)
    | Tick
    | Park
    | StopFlusher
    | TakeToken(f: nat)
    | DrainOne(f: nat)
    | EndDrain(f: nat)
    | HandOver(f: nat)
    | QueueRelease
    | TakeRelease
    | ReleaseEarly
    | ReleaseOnTime
    | GiveToken
    | CheckAfterRelease
    | StopReleaser

  // ---------------------------------------------------------------- the atomic steps

  ghost predicate FlushAt(s: State, f: nat) { f < |s.flushes| }

  ghost predicate Enabled(cfg: Config, s: State, m: Move) {
    match m
    case Produce(_) => true
    case SignalCapacity(p) => p < |s.producers| && s.producers[p].Filling? && |s.channel| >= cfg.capacity
    case Enqueue(p) => p < |s.producers| && s.producers[p].Filling? && |s.channel| < cfg.capacity
    case Notify(p) => p < |s.producers| && s.producers[p].Notifying? && (s.flusher.Running? || s.flusher.Parked?)
    case Tick => s.flusher.Running?
    case Park => s.flusher.Parking?
    case StopFlusher => s.flusher.Running? || s.flusher.Parked?
    case TakeToken(f) => FlushAt(s, f) && s.flushes[f].Starting?
    case DrainOne(f) =>
      FlushAt(s, f) && s.flushes[f].Draining? && |s.flushes[f].items| < cfg.capacity && s.channel != []
    case EndDrain(f) =>
      FlushAt(s, f) && s.flushes[f].Draining? && (|s.flushes[f].items| >= cfg.capacity || s.channel == [])
    case HandOver(f) => FlushAt(s, f) && s.flushes[f].Handing?
    case QueueRelease => s.releasing > 0 && s.releases < cfg.maxConcurrency
    case TakeRelease => s.releaser.Waiting? && s.releases > 0
    case ReleaseEarly => s.releaser.Delaying? && s.capacityRelease
    case ReleaseOnTime => s.releaser.Delaying?
    case GiveToken => s.releaser.Giving? && s.tokens > 0
    case CheckAfterRelease => s.releaser.Checking?
    case StopReleaser => s.releaser.Waiting? || s.releaser.Delaying?
  }

  function Spawn(s: State): State { s.(flushes := s.flushes + [Starting]) }

  function SetFlush(s: State, f: nat, x: Flush): State
    requires f < |s.flushes|
  {
    s.(flushes := s.flushes[f := x])
  }

  function SetProducer(s: State, p: nat, x: Producer): State
    requires p < |s.producers|
  {
    s.(producers := s.producers[p := x])
  }

  function DoNotify(cfg: Config, s: State, p: nat): State
    requires p < |s.producers|
  {
    var s' := SetProducer(s, p, Released).(flusher := Running);
    if cfg.immediate then Spawn(s') else s'
  }

  function DoTakeToken(cfg: Config, s: State, f: nat): State
    requires f < |s.flushes|
  {
    if s.tokens < cfg.maxConcurrency then SetFlush(s, f, Draining([])).(tokens := s.tokens + 1)
    else SetFlush(s, f, Ended)
  }

  function DoDrainOne(s: State, f: nat): State
    requires f < |s.flushes| && s.flushes[f].Draining? && s.channel != []
  {
    SetFlush(s, f, Draining(s.flushes[f].items + [s.channel[0]])).(channel := s.channel[1..])
  }

  /** An empty batch is not handed to anyone. */
  function DoEndDrain(s: State, f: nat): State
    requires f < |s.flushes| && s.flushes[f].Draining?
  {
    if s.flushes[f].items == [] then SetFlush(s, f, Ended).(releasing := s.releasing + 1)
    else SetFlush(s, f, Handing(s.flushes[f].items))
  }

  function DoHandOver(s: State, f: nat): State
    requires f < |s.flushes| && s.flushes[f].Handing?
  {
    SetFlush(s, f, Ended).(delivered := s.delivered + s.flushes[f].items, releasing := s.releasing + 1)
  }

  ghost function Do(cfg: Config, s: State, m: Move): State
    requires Enabled(cfg, s, m)
  {
    match m
    case Produce(msg) => s.(producers := s.producers + [Filling(msg)])
    case SignalCapacity(_) => s.(capacityRelease := true)
    case Enqueue(p) =>
      var msg := s.producers[p].msg;
      SetProducer(s, p, Notifying).(channel := s.channel + [msg], enqueued := s.enqueued + [msg])
    case Notify(p) => DoNotify(cfg, s, p)
    case Tick => if s.channel == [] then s.(flusher := Parking) else Spawn(s)
    case Park => s.(flusher := Parked)
    case StopFlusher => (if cfg.drainOnShutdown then Spawn(s) else s).(flusher := FlusherStopped)
    case TakeToken(f) => DoTakeToken(cfg, s, f)
    case DrainOne(f) => DoDrainOne(s, f)
    case EndDrain(f) => DoEndDrain(s, f)
    case HandOver(f) => DoHandOver(s, f)
    case QueueRelease => s.(releasing := s.releasing - 1, releases := s.releases + 1)
    case TakeRelease => s.(releases := s.releases - 1, releaser := Delaying)
    case ReleaseEarly => s.(capacityRelease := false, releaser := Giving(true))
    case ReleaseOnTime => s.(releaser := Giving(false))
    case GiveToken => s.(tokens := s.tokens - 1, releaser := if s.releaser.early then Checking else Waiting)
    case CheckAfterRelease => (if s.channel != [] then Spawn(s) else s).(releaser := Waiting)
    case StopReleaser => s.(releaser := ReleaserStopped(s.releaser.Delaying?))
  }

  ghost predicate Steps(cfg: Config, s: State, m: Move, s': State) { Enabled(cfg, s, m) && s' == Do(cfg, s, m) }
  ghost predicate Next(cfg: Config, s: State, s': State) { exists m: Move :: Steps(cfg, s, m, s') }

  ghost predicate Behaviour(cfg: Config, trace: seq<State>) {
    && |trace| > 0
    && trace[0] == Init
    && forall i | 0 <= i < |trace| - 1 :: NextAt(cfg, trace, i)
  }

  ghost predicate NextAt(cfg: Config, trace: seq<State>, i: int)
    requires 0 <= i < |trace| - 1
  {
    Next(cfg, trace[i], trace[i + 1])
  }

  lemma PrefixIsBehaviour(cfg: Config, trace: seq<State>, n: nat)
    requires Behaviour(cfg, trace) && 0 < n <= |trace|
    ensures Behaviour(cfg, trace[..n])
  {
    var init := trace[..n];
    forall i | 0 <= i < |init| - 1 ensures NextAt(cfg, init, i) {
      assert NextAt(cfg, trace, i);
    }
  }

  // ---------------------------------------------------------------- what holds throughout

  function Items(f: Flush): seq<Msg> {
    match f case Draining(items) => items case Handing(items) => items case _ => []
  }

  /** The messages taken off the channel and not yet handed over. */
  function InFlight(fs: seq<Flush>): seq<Msg> {
    if fs == [] then [] else InFlight(fs[..|fs| - 1]) + Items(fs[|fs| - 1])
  }

  function IsRunning(f: Flush): int { if f.Draining? || f.Handing? then 1 else 0 }
  function IsNotifying(p: Producer): int { if p.Notifying? then 1 else 0 }

  function Held(r: ReleaserPc): nat {
    if r.Delaying? || r.Giving? || (r.ReleaserStopped? && r.held) then 1 else 0
  }

  /** A token is out for each running flush and for each release not yet done, and for nothing else. */
  ghost predicate TokensAccounted(cfg: Config, s: State) {
    && s.tokens == Sum(s.flushes, IsRunning) + s.releasing + s.releases + Held(s.releaser)
    && s.tokens <= cfg.maxConcurrency
  }

  /** No message sits in a parked buffer unannounced. */
  ghost predicate NoLostWakeUp(s: State) {
    s.flusher.Parking? || s.flusher.Parked? ==> |s.channel| <= Sum(s.producers, IsNotifying)
  }

  /** Every enqueued message is handed over, in flight or in the channel, and counted once. */
  ghost predicate Conserved(s: State) {
    multiset(s.enqueued) == multiset(s.delivered) + multiset(InFlight(s.flushes)) + multiset(s.channel)
  }

  /** With one flush at a time the messages keep their order. */
  ghost predicate InOrder(cfg: Config, s: State) {
    cfg.maxConcurrency == 1 ==> s.enqueued == s.delivered + InFlight(s.flushes) + s.channel
  }

  ghost predicate Inv(cfg: Config, s: State) {
    && |s.channel| <= cfg.capacity
    && TokensAccounted(cfg, s)
    && NoLostWakeUp(s)
    && Conserved(s)
    && InOrder(cfg, s)
  }

  // ---------------------------------------------------------------- in flight under one update

  lemma InFlightAppend(fs: seq<Flush>, x: Flush)
    ensures InFlight(fs + [x]) == InFlight(fs) + Items(x)
  {
    assert (fs + [x])[..|fs|] == fs;
  }

  lemma Associates(x: seq<Msg>, y: seq<Msg>, z: seq<Msg>)
    ensures x + (y + z) == (x + y) + z
  {}

  lemma {:induction false} InFlightConcat(a: seq<Flush>, b: seq<Flush>)
    ensures InFlight(a + b) == InFlight(a) + InFlight(b)
  {
    if b == [] {
      assert a + b == a;
    } else {
      var init, last := b[..|b| - 1], b[|b| - 1];
      InFlightConcat(a, init);
      assert a + b == (a + init) + [last];
      InFlightAppend(a + init, last);
      Associates(InFlight(a), InFlight(init), Items(last));
    }
  }

  /** Replacing flush `f` replaces its items and leaves the messages around them. */
  lemma InFlightSplit(fs: seq<Flush>, f: nat, x: Flush)
    requires f < |fs|
    ensures InFlight(fs) == InFlight(fs[..f]) + Items(fs[f]) + InFlight(fs[f + 1..])
    ensures InFlight(fs[f := x]) == InFlight(fs[..f]) + Items(x) + InFlight(fs[f + 1..])
  {
    assert fs == (fs[..f] + [fs[f]]) + fs[f + 1..];
    assert fs[f := x] == (fs[..f] + [x]) + fs[f + 1..];
    InFlightConcat(fs[..f] + [fs[f]], fs[f + 1..]);
    InFlightConcat(fs[..f] + [x], fs[f + 1..]);
    InFlightAppend(fs[..f], fs[f]);
    InFlightAppend(fs[..f], x);
  }

  /** When at most one flush runs, what is in flight is what that flush holds. */
  lemma {:induction false} InFlightOfOne(fs: seq<Flush>, f: nat)
    requires f < |fs| && IsRunning(fs[f]) == 1 && Sum(fs, IsRunning) <= 1
    ensures InFlight(fs) == Items(fs[f])
  {
    var n := |fs| - 1;
    if f == n {
      InFlightOfNone(fs[..n]);
      NothingAround(Items(fs[f]));
    } else {
      assert fs[..n][f] == fs[f];
      SumTerm(fs[..n], f, IsRunning);
      InFlightOfOne(fs[..n], f);
      assert Items(fs[n]) == [];
      NothingAround(Items(fs[f]));
    }
  }

  lemma NothingAround(x: seq<Msg>)
    ensures x + [] == x && [] + x == x
  {}

  lemma {:induction false} InFlightOfNone(fs: seq<Flush>)
    requires Sum(fs, IsRunning) <= 0
    ensures InFlight(fs) == []
  {
    if fs != [] {
      var n := |fs| - 1;
      SumTerm(fs, n, IsRunning);
      if n > 0 {
        SumTerm(fs[..n], 0, IsRunning);
      }
      InFlightOfNone(fs[..n]);
    }
  }

  lemma RunningNonNegative(fs: seq<Flush>)
    ensures Sum(fs, IsRunning) >= 0
  {
    if fs != [] {
      SumTerm(fs, 0, IsRunning);
    }
  }

  // ---------------------------------------------------------------- one step

  lemma SpawnKeeps(cfg: Config, s: State)
    requires Inv(cfg, s)
    ensures Inv(cfg, Spawn(s))
  {
    InFlightAppend(s.flushes, Starting);
    SumAppend(s.flushes, Starting, IsRunning);
    assert InFlight(s.flushes) + [] == InFlight(s.flushes);
  }

  lemma ProducerStepKeeps(cfg: Config, s: State, m: Move, s': State)
    requires Inv(cfg, s) && Steps(cfg, s, m, s') && (m.Produce? || m.SignalCapacity? || m.Enqueue? || m.Notify?)
    ensures Inv(cfg, s')
  {
    match m
    case Produce(msg) => SumAppend(s.producers, Filling(msg), IsNotifying);
    case SignalCapacity(_) =>
    case Enqueue(p) =>
      SumUpdate(s.producers, p, Notifying, IsNotifying);
      assert s.delivered + InFlight(s.flushes) + (s.channel + [s.producers[p].msg])
          == (s.delivered + InFlight(s.flushes) + s.channel) + [s.producers[p].msg];
    case Notify(p) =>
      var t := SetProducer(s, p, Released).(flusher := Running);
      SpawnKeeps(cfg, t);
  }

  lemma FlusherStepKeeps(cfg: Config, s: State, m: Move, s': State)
    requires Inv(cfg, s) && Steps(cfg, s, m, s') && (m.Tick? || m.Park? || m.StopFlusher?)
    ensures Inv(cfg, s')
  {
    SpawnKeeps(cfg, s);
    ProducersNonNegative(s.producers);
    SpawnKeeps(cfg, s.(flusher := FlusherStopped));
  }

  lemma ProducersNonNegative(ps: seq<Producer>)
    ensures Sum(ps, IsNotifying) >= 0
  {
    if ps != [] {
      SumTerm(ps, 0, IsNotifying);
    }
  }

  lemma SameItems(fs: seq<Flush>, f: nat, x: Flush)
    requires f < |fs| && Items(fs[f]) == Items(x)
    ensures InFlight(fs[f := x]) == InFlight(fs)
  {
    InFlightSplit(fs, f, x);
  }

  lemma TakeTokenKeeps(cfg: Config, s: State, f: nat)
    requires Inv(cfg, s) && Enabled(cfg, s, TakeToken(f))
    ensures Inv(cfg, DoTakeToken(cfg, s, f))
  {
    var x := if s.tokens < cfg.maxConcurrency then Draining([]) else Ended;
    SumUpdate(s.flushes, f, x, IsRunning);
    SameItems(s.flushes, f, x);
  }

  lemma EndDrainKeeps(cfg: Config, s: State, f: nat)
    requires Inv(cfg, s) && Enabled(cfg, s, EndDrain(f))
    ensures Inv(cfg, DoEndDrain(s, f))
  {
    var items := s.flushes[f].items;
    var x := if items == [] then Ended else Handing(items);
    SumUpdate(s.flushes, f, x, IsRunning);
    SameItems(s.flushes, f, x);
  }

  /** One message moves from the head of the channel to the end of a batch. */
  lemma DrainBalance(e: seq<Msg>, d: seq<Msg>, a: seq<Msg>, items: seq<Msg>, b: seq<Msg>, channel: seq<Msg>)
    requires channel != []
    requires multiset(e) == multiset(d) + multiset(a + items + b) + multiset(channel)
    ensures multiset(e) == multiset(d) + multiset(a + (items + [channel[0]]) + b) + multiset(channel[1..])
  {
    assert channel == [channel[0]] + channel[1..];
    assert multiset(channel) == multiset{channel[0]} + multiset(channel[1..]);
    assert multiset(a + (items + [channel[0]]) + b) == multiset(a + items + b) + multiset{channel[0]};
  }

  lemma Regroup(d: seq<Msg>, items: seq<Msg>, channel: seq<Msg>)
    requires channel != []
    ensures d + items + channel == d + (items + [channel[0]]) + channel[1..]
  {}

  lemma DrainOneConserves(s: State, f: nat)
    requires Conserved(s) && f < |s.flushes| && s.flushes[f].Draining? && s.channel != []
    ensures Conserved(DoDrainOne(s, f))
  {
    InFlightSplit(s.flushes, f, DoDrainOne(s, f).flushes[f]);
    DrainBalance(s.enqueued, s.delivered, InFlight(s.flushes[..f]), s.flushes[f].items,
                 InFlight(s.flushes[f + 1..]), s.channel);
  }

  lemma DrainOneInOrder(cfg: Config, s: State, f: nat)
    requires Inv(cfg, s) && Enabled(cfg, s, DrainOne(f))
    ensures InOrder(cfg, DoDrainOne(s, f))
  {
    var items, x := s.flushes[f].items, DoDrainOne(s, f).flushes[f];
    if cfg.maxConcurrency == 1 {
      SumUpdate(s.flushes, f, x, IsRunning);
      InFlightOfOne(s.flushes, f);
      InFlightOfOne(s.flushes[f := x], f);
      Regroup(s.delivered, items, s.channel);
    }
  }

  lemma DrainOneKeeps(cfg: Config, s: State, f: nat)
    requires Inv(cfg, s) && Enabled(cfg, s, DrainOne(f))
    ensures Inv(cfg, DoDrainOne(s, f))
  {
    SumUpdate(s.flushes, f, DoDrainOne(s, f).flushes[f], IsRunning);
    DrainOneConserves(s, f);
    DrainOneInOrder(cfg, s, f);
  }

  lemma HandOverBalance(e: seq<Msg>, d: seq<Msg>, i: seq<Msg>, i': seq<Msg>, items: seq<Msg>, channel: seq<Msg>)
    requires multiset(e) == multiset(d) + multiset(i) + multiset(channel)
    requires multiset(i) == multiset(i') + multiset(items)
    ensures multiset(e) == multiset(d + items) + multiset(i') + multiset(channel)
  {}

  lemma Without(i: seq<Msg>, i': seq<Msg>, a: seq<Msg>, items: seq<Msg>, b: seq<Msg>)
    requires i == a + items + b && i' == a + [] + b
    ensures multiset(i) == multiset(i') + multiset(items)
  {}

  lemma HandedOver(fs: seq<Flush>, f: nat, i: seq<Msg>, i': seq<Msg>)
    requires f < |fs| && fs[f].Handing? && i == InFlight(fs) && i' == InFlight(fs[f := Ended])
    ensures multiset(i) == multiset(i') + multiset(fs[f].items)
  {
    var a, b := InFlight(fs[..f]), InFlight(fs[f + 1..]);
    InFlightSplit(fs, f, Ended);
    Without(i, i', a, fs[f].items, b);
  }

  lemma HandOverConserves(s: State, f: nat)
    requires Conserved(s) && f < |s.flushes| && s.flushes[f].Handing?
    ensures Conserved(DoHandOver(s, f))
  {
    HandedOver(s.flushes, f, InFlight(s.flushes), InFlight(s.flushes[f := Ended]));
    HandOverBalance(s.enqueued, s.delivered, InFlight(s.flushes), InFlight(s.flushes[f := Ended]),
                    s.flushes[f].items, s.channel);
  }

  lemma HandedInOrder(e: seq<Msg>, d: seq<Msg>, i: seq<Msg>, i': seq<Msg>, channel: seq<Msg>)
    requires e == d + i + channel && i' == []
    ensures e == (d + i) + i' + channel
  {}

  lemma {:induction false} HandOverInOrder(cfg: Config, s: State, f: nat)
    requires Inv(cfg, s) && Enabled(cfg, s, HandOver(f))
    ensures InOrder(cfg, DoHandOver(s, f))
  {
    if cfg.maxConcurrency == 1 {
      SumUpdate(s.flushes, f, Ended, IsRunning);
      InFlightOfOne(s.flushes, f);
      InFlightOfNone(s.flushes[f := Ended]);
      HandedInOrder(s.enqueued, s.delivered, InFlight(s.flushes), InFlight(s.flushes[f := Ended]), s.channel);
    }
  }

  lemma HandOverKeeps(cfg: Config, s: State, f: nat)
    requires Inv(cfg, s) && Enabled(cfg, s, HandOver(f))
    ensures Inv(cfg, DoHandOver(s, f))
  {
    SumUpdate(s.flushes, f, Ended, IsRunning);
    HandOverConserves(s, f);
    HandOverInOrder(cfg, s, f);
  }

  lemma ReleaserStepKeeps(cfg: Config, s: State, m: Move, s': State)
    requires Inv(cfg, s) && Steps(cfg, s, m, s')
    requires
      || m.QueueRelease? || m.TakeRelease? || m.ReleaseEarly? || m.ReleaseOnTime?
      || m.GiveToken? || m.CheckAfterRelease? || m.StopReleaser?
    ensures Inv(cfg, s')
  {
    if m.CheckAfterRelease? {
      SpawnKeeps(cfg, s.(releaser := Waiting));
    }
  }

  lemma StepKeeps(cfg: Config, s: State, m: Move, s': State)
    requires Inv(cfg, s) && Steps(cfg, s, m, s')
    ensures Inv(cfg, s')
  {
    match m
    case TakeToken(f) => TakeTokenKeeps(cfg, s, f);
    case DrainOne(f) => DrainOneKeeps(cfg, s, f);
    case EndDrain(f) => EndDrainKeeps(cfg, s, f);
    case HandOver(f) => HandOverKeeps(cfg, s, f);
    case Produce(_) => ProducerStepKeeps(cfg, s, m, s');
    case SignalCapacity(_) => ProducerStepKeeps(cfg, s, m, s');
    case Enqueue(_) => ProducerStepKeeps(cfg, s, m, s');
    case Notify(_) => ProducerStepKeeps(cfg, s, m, s');
    case Tick => FlusherStepKeeps(cfg, s, m, s');
    case Park => FlusherStepKeeps(cfg, s, m, s');
    case StopFlusher => FlusherStepKeeps(cfg, s, m, s');
    case _ => ReleaserStepKeeps(cfg, s, m, s');
  }

  // ---------------------------------------------------------------- every interleaving

  lemma {:induction false} BehaviourKeepsInv(cfg: Config, trace: seq<State>)
    requires Behaviour(cfg, trace)
    ensures Inv(cfg, trace[|trace| - 1])
    decreases |trace|
  {
    var n := |trace| - 1;
    if n > 0 {
      PrefixIsBehaviour(cfg, trace, n);
      BehaviourKeepsInv(cfg, trace[..n]);
      assert NextAt(cfg, trace, n - 1);
      var m: Move :| Steps(cfg, trace[n - 1], m, trace[n]);
      StepKeeps(cfg, trace[n - 1], m, trace[n]);
    }
  }

  lemma BufferIsSafe(cfg: Config, trace: seq<State>)
    requires Behaviour(cfg, trace)
    ensures forall s | s in trace :: NoLostWakeUp(s) && Conserved(s) && InOrder(cfg, s) && TokensAccounted(cfg, s)
  {
    forall i | 0 <= i < |trace|
      ensures NoLostWakeUp(trace[i]) && Conserved(trace[i]) && InOrder(cfg, trace[i]) && TokensAccounted(cfg, trace[i])
    {
      PrefixIsBehaviour(cfg, trace, i + 1);
      BehaviourKeepsInv(cfg, trace[..i + 1]);
      assert Inv(cfg, trace[i]);
    }
  }

  /** The releaser never waits for a token, and a finished flush never waits to queue its release. */
  lemma ReleasesNeverBlock(cfg: Config, trace: seq<State>)
    requires Behaviour(cfg, trace)
    ensures var s := trace[|trace| - 1];
            && (s.releaser.Giving? ==> Enabled(cfg, s, GiveToken))
            && (s.releasing > 0 ==> Enabled(cfg, s, QueueRelease))
  {
    BehaviourKeepsInv(cfg, trace);
    RunningNonNegative(trace[|trace| - 1].flushes);
  }
}
