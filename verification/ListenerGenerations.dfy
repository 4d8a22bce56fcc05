/**
 Start, Stop, the receive loop and the status sender of the durable task listener, as interleaved
 critical sections.

 Each successful Start makes one generation, whose receive loop shuts the callback state down when it
 ends.  New waits are announced to the stream's sender through a one-slot signal that is set after the
 registration's mutex is released.
 */
module ListenerGenerations {
  import opened Options

  datatype LoopPc = Streaming | Terminating | Retiring | Dead

  datatype StarterPc = Looking | AwaitingDone(gen: nat) | Committing | Finished

  datatype Killer = ByStop | ByLoop(gen: nat)

  datatype Status = Pending | Killed(killer: Killer) | Answered

  /** `epoch`: how many generations had been started when the wait was registered. */
  datatype Callback = Callback(epoch: nat, status: Status)

  datatype SenderPc = NoSender | Draining | TakingAll | Serving | TakingNewly

  datatype State = State(
    running: bool,
    done: Option<nat>,
    loops: seq<LoopPc>,
    starters: seq<StarterPc>,
    terminal: bool,
    callbacks: seq<Callback>,
    newly: set<nat>,
    token: bool,
    signalling: nat,
    sender: SenderPc)

  const Init := State(false, None, [], [], false, [], {}, false, 0, NoSender)

  datatype Move =
    | CallStart
    | Look(a: nat)
    | WakeOnDone(a: nat)
    | GiveUpWaiting(a: nat)
    | Commit(a: nat)
    | Stop
    | EndStream(gen: nat)
    | Terminate(gen: nat)
    | Retire(gen: nat)
    | Register
    | AnswerCallback(c: nat)
    | Signal
    | OpenStream(gen: nat)
    | DrainToken
    | TakeAll
    | ReceiveToken
    | TakeNewly
    | StopSender

  ghost predicate LoopAt(s: State, g: nat, pc: LoopPc) { g < |s.loops| && s.loops[g] == pc }

  ghost predicate Enabled(s: State, m: Move) {
    match m
    case CallStart => true
    case Look(a) => a < |s.starters| && s.starters[a].Looking?
    // the channel of a generation is closed by its loop's last step
    case WakeOnDone(a) => a < |s.starters| && s.starters[a].AwaitingDone? && LoopAt(s, s.starters[a].gen, Dead)
    // the context of the call ends while it waits
    case GiveUpWaiting(a) => a < |s.starters| && s.starters[a].AwaitingDone?
    case Commit(a) => a < |s.starters| && s.starters[a].Committing?
    case Stop => true
    // a stream is left only after its sender has stopped
    case EndStream(g) => LoopAt(s, g, Streaming) && s.sender.NoSender?
    case Terminate(g) => LoopAt(s, g, Terminating)
    case Retire(g) => LoopAt(s, g, Retiring)
    case Register => true
    case AnswerCallback(c) => c < |s.callbacks| && s.callbacks[c].status.Pending?
    case Signal => s.signalling > 0
    case OpenStream(g) => LoopAt(s, g, Streaming) && s.sender.NoSender?
    case DrainToken => s.sender.Draining?
    case TakeAll => s.sender.TakingAll?
    case ReceiveToken => s.sender.Serving? && s.token
    case TakeNewly => s.sender.TakingNewly?
    case StopSender => s.sender.Serving?
  }

  function Starter(s: State, a: nat, pc: StarterPc): State
    requires a < |s.starters|
  {
    s.(starters := s.starters[a := pc])
  }

  function KillPending(cs: seq<Callback>, killer: Killer): seq<Callback> {
    seq(|cs|, i requires 0 <= i < |cs| => if cs[i].status.Pending? then cs[i].(status := Killed(killer)) else cs[i])
  }

  /** The terminal transition answers every pending wait and empties the set of new ones. */
  function Shutdown(s: State, killer: Killer): State {
    s.(terminal := true, callbacks := KillPending(s.callbacks, killer), newly := {})
  }

  function DoLook(s: State, a: nat): State
    requires a < |s.starters|
  {
    Starter(s, a, if s.running then Finished else if s.done.Some? then AwaitingDone(s.done.value) else Committing)
  }

  function DoCommit(s: State, a: nat): State
    requires a < |s.starters|
  {
    if s.running || s.done.Some? then Starter(s, a, Looking)
    else
      Starter(s, a, Finished).(
        terminal := false, running := true, done := Some(|s.loops|), loops := s.loops + [Streaming])
  }

  function DoRegister(s: State): State {
    if s.terminal then s.(callbacks := s.callbacks + [Callback(|s.loops|, Answered)])
    else
      s.(callbacks := s.callbacks + [Callback(|s.loops|, Pending)],
         newly := s.newly + {|s.callbacks|},
         signalling := s.signalling + 1)
  }

  function DoRetire(s: State, g: nat): State
    requires g < |s.loops|
  {
    s.(running := false, done := if s.done == Some(g) then None else s.done, loops := s.loops[g := Dead])
  }

  ghost function Do(s: State, m: Move): State
    requires Enabled(s, m)
  {
    match m
    case CallStart => s.(starters := s.starters + [Looking])
    case Look(a) => DoLook(s, a)
    case WakeOnDone(a) => Starter(s, a, Looking)
    case GiveUpWaiting(a) => Starter(s, a, Finished)
    case Commit(a) => DoCommit(s, a)
    case Stop => Shutdown(s, ByStop).(running := false)
    case EndStream(g) => s.(loops := s.loops[g := Terminating])
    case Terminate(g) => Shutdown(s, ByLoop(g)).(loops := s.loops[g := Retiring])
    case Retire(g) => DoRetire(s, g)
    case Register => DoRegister(s)
    case AnswerCallback(c) =>
      s.(callbacks := s.callbacks[c := s.callbacks[c].(status := Answered)], newly := s.newly - {c})
    case Signal => s.(token := true, signalling := s.signalling - 1)
    case OpenStream(_) => s.(sender := Draining)
    case DrainToken => s.(token := false, sender := TakingAll)
    case TakeAll => s.(newly := {}, sender := Serving)
    case ReceiveToken => s.(token := false, sender := TakingNewly)
    case TakeNewly => s.(newly := {}, sender := Serving)
    case StopSender => s.(sender := NoSender)
  }

  ghost predicate Steps(s: State, m: Move, s': State) { Enabled(s, m) && s' == Do(s, m) }
  ghost predicate Next(s: State, s': State) { exists m: Move :: Steps(s, m, s') }

  ghost predicate Behaviour(trace: seq<State>) {
    && |trace| > 0
    && trace[0] == Init
    && forall i | 0 <= i < |trace| - 1 :: NextAt(trace, i)
  }

  ghost predicate NextAt(trace: seq<State>, i: int)
    requires 0 <= i < |trace| - 1
  {
    Next(trace[i], trace[i + 1])
  }

  lemma StepFrom(trace: seq<State>, n: nat, next: nat) returns (m: Move)
    requires Behaviour(trace) && next == n + 1 && next < |trace|
    ensures Steps(trace[n], m, trace[next])
  {
    assert NextAt(trace, n);
    m :| Steps(trace[n], m, trace[next]);
  }

  // ---------------------------------------------------------------- what holds throughout

  /** A wait not yet reported has its signal set, about to be set, or a sender about to take the set. */
  ghost predicate NoUnreportedWait(s: State) {
    s.newly != {} ==> s.token || s.signalling > 0 || s.sender.Draining? || s.sender.TakingAll? || s.sender.TakingNewly?
  }

  ghost predicate OneLoopAlive(s: State) {
    forall g | 0 <= g < |s.loops| - 1 :: s.loops[g].Dead?
  }

  /** A generation only ends waits registered before the next generation started. */
  ghost predicate NoCrossGenerationKill(s: State) {
    forall c | c in s.callbacks && c.status.Killed? && c.status.killer.ByLoop? :: c.epoch <= c.status.killer.gen + 1
  }

  ghost predicate DoneMatches(s: State) {
    && (s.done.Some? ==> s.done.value + 1 == |s.loops| && !s.loops[s.done.value].Dead?)
    && (s.done.None? ==> forall g | 0 <= g < |s.loops| :: s.loops[g].Dead?)
    && (s.running ==> s.done.Some?)
  }

  ghost predicate EpochsKnown(s: State) {
    && (forall c | c in s.callbacks :: c.epoch <= |s.loops|)
    && (forall i | i in s.newly :: i < |s.callbacks| && s.callbacks[i].status.Pending?)
    && (s.terminal ==> forall c | c in s.callbacks :: !c.status.Pending?)
  }

  ghost predicate Inv(s: State) {
    && NoUnreportedWait(s)
    && OneLoopAlive(s)
    && DoneMatches(s)
    && EpochsKnown(s)
    && NoCrossGenerationKill(s)
  }

  lemma ShutdownKeeps(s: State, m: Move, s': State)
    requires Inv(s) && Steps(s, m, s') && (m.Stop? || m.Terminate?)
    ensures Inv(s')
  {}

  lemma CommitKeeps(s: State, m: Move, s': State)
    requires Inv(s) && Steps(s, m, s') && (m.Commit? || m.Retire? || m.EndStream?)
    ensures Inv(s')
  {}

  lemma WaitKeeps(s: State, m: Move, s': State)
    requires Inv(s) && Steps(s, m, s') && (m.Register? || m.AnswerCallback?)
    ensures Inv(s')
  {}

  lemma StepKeeps(s: State, m: Move, s': State)
    requires Inv(s) && Steps(s, m, s')
    ensures Inv(s')
  {
    match m
    case Stop => ShutdownKeeps(s, m, s');
    case Terminate(_) => ShutdownKeeps(s, m, s');
    case Commit(_) => CommitKeeps(s, m, s');
    case Retire(_) => CommitKeeps(s, m, s');
    case EndStream(_) => CommitKeeps(s, m, s');
    case Register => WaitKeeps(s, m, s');
    case AnswerCallback(_) => WaitKeeps(s, m, s');
    case _ =>
  }

  lemma {:induction false} BehaviourKeepsInv(trace: seq<State>, i: nat)
    requires Behaviour(trace) && i < |trace|
    ensures Inv(trace[i])
  {
    if i > 0 {
      BehaviourKeepsInv(trace, i - 1);
      var m := StepFrom(trace, i - 1, i);
      StepKeeps(trace[i - 1], m, trace[i]);
    }
  }

  /**
   Throughout every interleaving no wait goes unreported, one loop lives, and no loop ends a later
   generation's waits.
   */
  lemma GenerationsAreSafe(trace: seq<State>)
    requires Behaviour(trace)
    ensures forall s | s in trace :: NoUnreportedWait(s) && OneLoopAlive(s) && NoCrossGenerationKill(s)
  {
    forall i | 0 <= i < |trace|
      ensures NoUnreportedWait(trace[i]) && OneLoopAlive(trace[i]) && NoCrossGenerationKill(trace[i])
    {
      BehaviourKeepsInv(trace, i);
    }
  }

  // ---------------------------------------------------------------- starting and stopping

  /** While its stream is up the state takes waits; once the listener has stopped it answers them at once. */
  ghost predicate TerminalMatches(s: State) {
    && (s.running && s.done.Some? && LoopAt(s, s.done.value, Streaming) ==> !s.terminal)
    && (s.loops != [] && !s.running ==> s.terminal)
    && (forall g | 0 <= g < |s.loops| && s.loops[g].Retiring? :: s.terminal)
  }

  lemma TerminalNext(s: State, m: Move, s': State)
    requires Inv(s) && TerminalMatches(s) && Steps(s, m, s')
    ensures TerminalMatches(s')
  {}

  lemma {:induction false} TakesWaitsWhileUp(trace: seq<State>, i: nat)
    requires Behaviour(trace) && i < |trace|
    ensures TerminalMatches(trace[i])
  {
    if i > 0 {
      TakesWaitsWhileUp(trace, i - 1);
      BehaviourKeepsInv(trace, i - 1);
      var m := StepFrom(trace, i - 1, i);
      TerminalNext(trace[i - 1], m, trace[i]);
    }
  }

  /**
   A call of Start returns only when the listener runs, or its context ends while it waits, and it makes a
   generation only if none was left.
   */
  lemma StartMeansRunning(s: State, m: Move, s': State, a: nat)
    requires Inv(s) && Steps(s, m, s') && a < |s'.starters| && s'.starters[a].Finished?
    ensures a < |s.starters| && (s.starters[a].Finished? || s'.running || m == GiveUpWaiting(a))
    ensures |s'.loops| > |s.loops| ==>
      s'.loops == s.loops + [Streaming] && forall g | 0 <= g < |s.loops| :: s.loops[g].Dead?
  {}

  /** A call of Start that does not go on waits for a generation that is still alive. */
  ghost predicate StarterOk(s: State, a: nat)
    requires a < |s.starters|
  {
    s.starters[a].Finished? || Enabled(s, Look(a)) || Enabled(s, Commit(a)) || Enabled(s, WakeOnDone(a))
    || (s.starters[a].AwaitingDone? && s.starters[a].gen < |s.loops| && !s.loops[s.starters[a].gen].Dead?)
  }

  ghost predicate AwaitsKnown(s: State) {
    forall a | 0 <= a < |s.starters| && s.starters[a].AwaitingDone? :: s.starters[a].gen < |s.loops|
  }

  lemma AwaitsNext(s: State, m: Move, s': State)
    requires Inv(s) && AwaitsKnown(s) && Steps(s, m, s')
    ensures AwaitsKnown(s')
  {}

  lemma {:induction false} AllAwaitKnown(trace: seq<State>, i: nat)
    requires Behaviour(trace) && i < |trace|
    ensures AwaitsKnown(trace[i])
  {
    if i > 0 {
      AllAwaitKnown(trace, i - 1);
      BehaviourKeepsInv(trace, i - 1);
      var m := StepFrom(trace, i - 1, i);
      AwaitsNext(trace[i - 1], m, trace[i]);
    }
  }

  lemma StartNeverSticks(trace: seq<State>, i: nat, a: nat)
    requires Behaviour(trace) && i < |trace| && a < |trace[i].starters|
    ensures StarterOk(trace[i], a)
  {
    AllAwaitKnown(trace, i);
  }

  // ---------------------------------------------------------------- what becomes of a wait

  /** A wait that is there ends only by its answer, by Stop or by its loop, and whoever ends it is noted. */
  lemma WaitsEndExactly(s: State, m: Move, s': State, c: nat)
    requires Steps(s, m, s') && c < |s.callbacks|
    ensures c < |s'.callbacks| && s'.callbacks[c].epoch == s.callbacks[c].epoch
    ensures s'.callbacks[c].status ==
      if !s.callbacks[c].status.Pending? then s.callbacks[c].status
      else if m.Stop? then Killed(ByStop)
      else if m.Terminate? then Killed(ByLoop(m.gen))
      else if m == AnswerCallback(c) then Answered
      else Pending
  {}

  /** A new wait is pending exactly if the listener is not down, and belongs to the newest generation. */
  lemma NewWait(s: State, m: Move, s': State)
    requires Steps(s, m, s') && |s'.callbacks| > |s.callbacks|
    ensures m.Register? && |s'.callbacks| == |s.callbacks| + 1
    ensures var c := s'.callbacks[|s.callbacks|];
      c.epoch == |s.loops| && (c.status == if s.terminal then Answered else Pending)
  {}

  /** The step reports wait `c` to the engine. */
  ghost predicate Reports(s: State, m: Move, c: nat) {
    && c < |s.callbacks| && s.callbacks[c].status.Pending?
    && (m.TakeAll? || (m.TakeNewly? && c in s.newly))
  }

  ghost predicate ReportsAt(trace: seq<State>, j: nat, c: nat) {
    j < |trace| - 1 && exists m: Move :: Steps(trace[j], m, trace[j + 1]) && Reports(trace[j], m, c)
  }

  lemma ReportedNext(s: State, m: Move, s': State, c: nat)
    requires Steps(s, m, s') && c < |s'.callbacks| && s'.callbacks[c].status.Pending?
    ensures c < |s.callbacks| ==> s.callbacks[c].status.Pending?
    ensures c < |s.callbacks| && c in s.newly ==> c in s'.newly || Reports(s, m, c)
    ensures c >= |s.callbacks| ==> c in s'.newly
  {}

  /** In every run a wait that is pending was reported to the engine, or is still in the set to be reported. */
  lemma {:induction false} PendingIsReported(trace: seq<State>, i: nat, c: nat)
    requires Behaviour(trace) && i < |trace| && c < |trace[i].callbacks| && trace[i].callbacks[c].status.Pending?
    ensures c in trace[i].newly || exists j | 0 <= j < i :: ReportsAt(trace, j, c)
  {
    var m := StepFrom(trace, i - 1, i);
    ReportedNext(trace[i - 1], m, trace[i], c);
    if c < |trace[i - 1].callbacks| {
      PendingIsReported(trace, i - 1, c);
      if c in trace[i - 1].newly && c !in trace[i].newly {
        assert ReportsAt(trace, i - 1, c);
      }
    }
  }
}
