/**
 One buffer of the map and its evictor on a clock: the evictor looks whether the buffer's channel is empty and
 then closes it if no producer has acquired it for the idle timeout. Whether a message can be left behind in
 a closed buffer is a question of how long these steps may lie apart.
 */
module BufferIdle {

  /** `hold`: from acquiring the buffer to the enqueue. `gap`: from finding it empty to trying to close it. */
  datatype Config = Config(timeout: nat, hold: nat, gap: nat)

  /** A producer that has acquired the buffer. */
  datatype Holder = Holder(acquired: int, sent: bool)

  datatype Evictor = Ranging | FoundEmpty(at: int)

  /** `lastSent` records when the latest message was enqueued. */
  datatype State = State(
    now: int,
    lastActive: int,
    lastSent: int,
    closed: bool,
    queue: nat,
    holders: seq<Holder>,
    evictor: Evictor)

  const Init := State(0, 0, 0, false, 0, [], Ranging)

  datatype Move =
    | Tick(d: nat)
    | Acquire
    | Enqueue(h: nat)
    | Release(h: nat)
    | Flush(n: nat)
    | Look
    | TryEvict

  /** The write lock of the evictor waits for every holder to be gone. */
  predicate Enabled(cfg: Config, s: State, m: Move) {
    match m
    case Tick(_) => true
    case Acquire => !s.closed
    case Enqueue(h) => h < |s.holders| && !s.holders[h].sent && s.now - s.holders[h].acquired <= cfg.hold
    case Release(h) => h < |s.holders| && s.holders[h].sent
    case Flush(n) => n <= s.queue
    case Look => s.evictor.Ranging? && s.queue == 0
    case TryEvict => s.evictor.FoundEmpty? && s.holders == [] && s.now - s.evictor.at <= cfg.gap
  }

  function Do(cfg: Config, s: State, m: Move): State
    requires Enabled(cfg, s, m)
  {
    match m
    case Tick(d) => s.(now := s.now + d)
    case Acquire => s.(lastActive := s.now, holders := s.holders + [Holder(s.now, false)])
    case Enqueue(h) =>
      s.(queue := s.queue + 1, lastSent := s.now, holders := s.holders[h := s.holders[h].(sent := true)])
    case Release(h) => s.(holders := s.holders[..h] + s.holders[h + 1..])
    case Flush(n) => s.(queue := s.queue - n)
    case Look => s.(evictor := FoundEmpty(s.now))
    case TryEvict => s.(evictor := Ranging, closed := s.closed || s.now - s.lastActive >= cfg.timeout)
  }

  predicate Next(cfg: Config, s: State, m: Move, s': State) { Enabled(cfg, s, m) && s' == Do(cfg, s, m) }

  predicate NextAt(cfg: Config, trace: seq<State>, ms: seq<Move>, i: int)
    requires 0 <= i < |ms| < |trace|
  {
    Next(cfg, trace[i], ms[i], trace[i + 1])
  }

  ghost predicate Behaviour(cfg: Config, trace: seq<State>, ms: seq<Move>) {
    |trace| == |ms| + 1 && trace[0] == Init && forall i | 0 <= i < |ms| :: NextAt(cfg, trace, ms, i)
  }

  // ---------------------------------------------------------------- what every step keeps

  ghost predicate Clocked(cfg: Config, s: State) {
    && s.lastActive <= s.now && s.lastSent <= s.now && s.lastSent <= s.lastActive + cfg.hold
    && (forall h | 0 <= h < |s.holders| :: s.holders[h].acquired <= s.lastActive)
    && (s.closed ==> s.holders == [])
  }

  /** A message that is in the channel although it was found empty was enqueued since. */
  ghost predicate SentSince(s: State) {
    s.evictor.FoundEmpty? ==> s.evictor.at <= s.now && (s.queue > 0 ==> s.evictor.at <= s.lastSent)
  }

  ghost predicate NothingLeft(s: State) { s.closed ==> s.queue == 0 }

  ghost predicate Inv(cfg: Config, s: State) { Clocked(cfg, s) && SentSince(s) }

  lemma StepKeeps(cfg: Config, s: State, m: Move, s': State)
    requires Inv(cfg, s) && Next(cfg, s, m, s')
    ensures Inv(cfg, s')
  {
    match m
    case Release(h) =>
      forall i | 0 <= i < |s'.holders| ensures s'.holders[i].acquired <= s'.lastActive {
        assert s'.holders[i] == if i < h then s.holders[i] else s.holders[i + 1];
      }
    case _ =>
  }

  lemma NothingIsLeft(cfg: Config, s: State, m: Move, s': State)
    requires Inv(cfg, s) && NothingLeft(s) && Next(cfg, s, m, s') && cfg.hold + cfg.gap < cfg.timeout
    ensures NothingLeft(s')
  {}

  lemma {:induction false} ClosedIsEmpty(cfg: Config, trace: seq<State>, ms: seq<Move>, i: nat)
    requires Behaviour(cfg, trace, ms) && i <= |ms| && cfg.hold + cfg.gap < cfg.timeout
    ensures Inv(cfg, trace[i]) && NothingLeft(trace[i])
  {
    if i > 0 {
      ClosedIsEmpty(cfg, trace, ms, i - 1);
      assert NextAt(cfg, trace, ms, i - 1);
      StepKeeps(cfg, trace[i - 1], ms[i - 1], trace[i]);
      NothingIsLeft(cfg, trace[i - 1], ms[i - 1], trace[i]);
    }
  }

  // ---------------------------------------------------------------- exactly when

  lemma Extend(cfg: Config, trace: seq<State>, ms: seq<Move>, m: Move) returns (trace': seq<State>, ms': seq<Move>)
    requires Behaviour(cfg, trace, ms) && Enabled(cfg, trace[|ms|], m)
    ensures Behaviour(cfg, trace', ms') && trace'[|ms'|] == Do(cfg, trace[|ms|], m)
  {
    trace', ms' := trace + [Do(cfg, trace[|ms|], m)], ms + [m];
    forall i | 0 <= i < |ms'| ensures NextAt(cfg, trace', ms', i) {
      if i < |ms| {
        assert NextAt(cfg, trace, ms, i);
      }
    }
  }

  /** A producer acquires the buffer and enqueues only once it has been found empty; then the timeout has passed. */
  lemma LeftBehind(cfg: Config) returns (trace: seq<State>, ms: seq<Move>)
    requires cfg.hold + cfg.gap >= cfg.timeout
    ensures Behaviour(cfg, trace, ms) && !NothingLeft(trace[|ms|])
  {
    var d := if cfg.hold < cfg.timeout then cfg.hold else cfg.timeout;
    trace, ms := Extend(cfg, [Init], [], Acquire);
    trace, ms := Extend(cfg, trace, ms, Tick(d));
    trace, ms := Extend(cfg, trace, ms, Look);
    assert trace[|ms|] == State(d, 0, 0, false, 0, [Holder(0, false)], FoundEmpty(d));
    trace, ms := Extend(cfg, trace, ms, Enqueue(0));
    assert trace[|ms|] == State(d, 0, d, false, 1, [Holder(0, true)], FoundEmpty(d));
    trace, ms := Extend(cfg, trace, ms, Release(0));
    trace, ms := Extend(cfg, trace, ms, Tick(cfg.timeout - d));
    assert trace[|ms|] == State(cfg.timeout, 0, d, false, 1, [], FoundEmpty(d));
    trace, ms := Extend(cfg, trace, ms, TryEvict);
  }

  ghost predicate NeverLeavesBehind(cfg: Config) {
    forall trace, ms | Behaviour(cfg, trace, ms) :: NothingLeft(trace[|ms|])
  }

  /**
   A closed buffer has an empty channel, in every run, exactly when the longest time from acquiring to
   enqueueing and the longest time from finding it empty to closing it add up to less than the timeout.
   */
  lemma ClosedIsEmptyExactly(cfg: Config)
    ensures NeverLeavesBehind(cfg) <==> cfg.hold + cfg.gap < cfg.timeout
  {
    if cfg.hold + cfg.gap < cfg.timeout {
      forall trace, ms | Behaviour(cfg, trace, ms) ensures NothingLeft(trace[|ms|]) {
        ClosedIsEmpty(cfg, trace, ms, |ms|);
      }
    } else {
      var trace, ms := LeftBehind(cfg);
    }
  }
}
