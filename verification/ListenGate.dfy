/**
 The listen gate: adders register handlers and make sure a listen loop runs, loops stop when nothing
 is registered or fail every handler on an error, and a mutex-guarded flag admits one loop at a time.

 Each critical section of the gate, each registry operation and each read of the stream's closed flag
 is one `Move`.  An adder's registration carries the adder's index.
 */
module ListenGate {

  /** `callerLoops`: a loop may be started on a caller's context, which can end before the listener does. */
  datatype Config = Config(callerLoops: bool)

  /** The three places where an adder makes sure that a loop runs. */
  datatype Stage = First | AfterFailedSend | Final

  datatype AdderPc =
    | Opening(stage: Stage)
    | Probing(stage: Stage)
    | Connecting(stage: Stage)
    | Starting(stage: Stage, sawClosed: bool)
    | Judging(stage: Stage)
    | Storing
    | Sending
    | SendingAgain
    | Removing
    | Returned
    | Failed

  datatype LoopPc =
    | Receiving
    | Deciding
    | Stopping
    | Failing
    | Cleared
    | Leaving
    | Gone

  /** `cancelled`: the caller's context that the loop runs on has ended. */
  datatype ListenLoop = ListenLoop(pc: LoopPc, onCaller: bool, cancelled: bool)

  datatype State = State(
    adders: seq<AdderPc>,
    loops: seq<ListenLoop>,
    regs: set<nat>,
    listening: bool,
    closed: bool)

  const Init := State([], [], {}, false, false)

  datatype Move =
    | NewAdder
    | CheckClosed(a: nat)
    | CheckActive(a: nat)
    | Connect(a: nat, ok: bool)
    | TryStart(a: nat)
    | JudgeRefusal(a: nat)
    | Store(a: nat)
    | Send(a: nat, ok: bool)
    | Remove(a: nat)
    | Unregister(r: nat)
    | Begin(onCaller: bool, sawClosed: bool)
    | CancelCaller(l: nat)
    | StopCleanly(l: nat)
    | ReadKeep(l: nat, keep: bool)
    | StopOnError(l: nat)
    | FailAll(l: nat)
    | StopSilently(l: nat)
    | Release(l: nat)
    | Close

  // ---------------------------------------------------------------- the atomic steps

  /** The loops that hold the gate's mutex. */
  predicate HoldsMutex(pc: LoopPc) {
    pc.Deciding? || pc.Stopping? || pc.Failing? || pc.Cleared? || pc.Leaving?
  }

  ghost predicate MutexFree(s: State) {
    forall i | 0 <= i < |s.loops| :: !HoldsMutex(s.loops[i].pc)
  }

  ghost predicate LoopAt(s: State, l: nat, pc: LoopPc) { l < |s.loops| && s.loops[l].pc == pc }

  /** The loop's context has ended: with the stream, or with the caller it runs for. */
  predicate ContextEnded(s: State, l: nat)
    requires l < |s.loops|
  {
    s.closed || s.loops[l].cancelled
  }

  ghost predicate Enabled(cfg: Config, s: State, m: Move) {
    match m
    case NewAdder => true
    case CheckClosed(a) => a < |s.adders| && s.adders[a].Opening?
    case CheckActive(a) => a < |s.adders| && s.adders[a].Probing? && MutexFree(s)
    case Connect(a, _) => a < |s.adders| && s.adders[a].Connecting?
    case TryStart(a) => a < |s.adders| && s.adders[a].Starting? && MutexFree(s)
    case JudgeRefusal(a) => a < |s.adders| && s.adders[a].Judging?
    case Store(a) => a < |s.adders| && s.adders[a].Storing?
    case Send(a, _) => a < |s.adders| && (s.adders[a].Sending? || s.adders[a].SendingAgain?)
    case Remove(a) => a < |s.adders| && s.adders[a].Removing?
    case Unregister(_) => true
    // the stream's closed flag is read before the gate is asked, so an open one may be closed since
    case Begin(onCaller, sawClosed) => MutexFree(s) && (onCaller ==> cfg.callerLoops) && (sawClosed ==> s.closed)
    case CancelCaller(l) => l < |s.loops| && s.loops[l].onCaller
    case StopCleanly(l) => LoopAt(s, l, Receiving) && MutexFree(s)
    // the context and the closed flag are read before the registry, so a kept loop may find either ended since
    case ReadKeep(l, keep) =>
      LoopAt(s, l, Deciding) && (if keep then s.regs != {} else s.regs == {} || ContextEnded(s, l))
    case StopOnError(l) => LoopAt(s, l, Receiving) && MutexFree(s)
    case FailAll(l) => LoopAt(s, l, Failing)
    case StopSilently(l) => LoopAt(s, l, Receiving) && MutexFree(s) && ContextEnded(s, l)
    case Release(l) => LoopAt(s, l, Stopping) || LoopAt(s, l, Cleared) || LoopAt(s, l, Leaving)
    case Close => true
  }

  /** What an adder does once a loop is known to run. */
  function Onward(stage: Stage): AdderPc {
    match stage case First => Storing case AfterFailedSend => SendingAgain case Final => Returned
  }

  /** What it does when making sure failed: after the handler is stored, take it out again. */
  function Backward(stage: Stage): AdderPc { if stage.First? then Failed else Removing }

  function Adder(s: State, a: nat, pc: AdderPc): State
    requires a < |s.adders|
  {
    s.(adders := s.adders[a := pc])
  }

  function Loop(s: State, l: nat, pc: LoopPc): State
    requires l < |s.loops|
  {
    s.(loops := s.loops[l := s.loops[l].(pc := pc)])
  }

  function Started(s: State, onCaller: bool): State {
    s.(listening := true, loops := s.loops + [ListenLoop(Receiving, onCaller, false)])
  }

  function DoTryStart(s: State, a: nat): State
    requires a < |s.adders| && s.adders[a].Starting?
  {
    if s.listening || s.adders[a].sawClosed then Adder(s, a, Judging(s.adders[a].stage))
    else Started(Adder(s, a, Onward(s.adders[a].stage)), false)
  }

  ghost function Do(cfg: Config, s: State, m: Move): State
    requires Enabled(cfg, s, m)
  {
    match m
    case NewAdder => s.(adders := s.adders + [Opening(First)])
    case CheckClosed(a) =>
      var stage := s.adders[a].stage;
      Adder(s, a, if s.closed then Backward(stage) else Probing(stage))
    case CheckActive(a) =>
      var stage := s.adders[a].stage;
      Adder(s, a, if s.listening then Onward(stage) else Connecting(stage))
    case Connect(a, ok) =>
      var stage := s.adders[a].stage;
      Adder(s, a, if ok then Starting(stage, s.closed) else Backward(stage))
    case TryStart(a) => DoTryStart(s, a)
    case JudgeRefusal(a) =>
      var stage := s.adders[a].stage;
      Adder(s, a, if s.closed then Backward(stage) else Onward(stage))
    case Store(a) => Adder(s, a, Sending).(regs := s.regs + {a})
    case Send(a, ok) =>
      Adder(s, a, if ok then Opening(Final)
                  else if s.adders[a].Sending? then Opening(AfterFailedSend)
                  else Removing)
    case Remove(a) => Adder(s, a, Failed).(regs := s.regs - {a})
    case Unregister(r) => s.(regs := s.regs - {r})
    case Begin(onCaller, sawClosed) => if s.listening || sawClosed then s else Started(s, onCaller)
    case CancelCaller(l) => s.(loops := s.loops[l := s.loops[l].(cancelled := true)])
    case StopCleanly(l) => Loop(s, l, Deciding)
    case ReadKeep(l, keep) => Loop(s, l, if keep then Receiving else Stopping)
    case StopOnError(l) => Loop(s, l, Failing)
    case FailAll(l) => Loop(s, l, Cleared).(regs := {})
    case StopSilently(l) => Loop(s, l, Leaving)
    case Release(l) => Loop(s, l, Gone).(listening := false)
    case Close => s.(closed := true)
  }

  ghost predicate Steps(cfg: Config, s: State, m: Move, s': State) {
    Enabled(cfg, s, m) && s' == Do(cfg, s, m)
  }

  ghost predicate Next(cfg: Config, s: State, s': State) {
    exists m: Move :: Steps(cfg, s, m, s')
  }

  ghost predicate Behaviour(cfg: Config, trace: seq<State>) {
    && |trace| > 0
    && trace[0] == Init
    && forall i | 0 <= i < |trace| - 1 :: NextAt(cfg, trace, i)
  }

  ghost predicate NextAt(cfg: Config, trace: seq<State>, i: int)
    requires 0 <= i < |trace| - 1
  {
    Next(cfg, trace[i], trace[i + 1])
  }

  // ---------------------------------------------------------------- what every step keeps

  predicate IsGone(loop: ListenLoop) { loop.pc.Gone? }

  /** At most one loop is not gone, and the flag says whether there is one. */
  ghost predicate OneLoop(s: State) {
    && (forall i, j | 0 <= i < j < |s.loops| :: IsGone(s.loops[i]) || IsGone(s.loops[j]))
    && (s.listening <==> exists i :: 0 <= i < |s.loops| && !IsGone(s.loops[i]))
  }

  predicate HasStored(pc: AdderPc) {
    match pc
    case Opening(stage) => !stage.First?
    case Probing(stage) => !stage.First?
    case Connecting(stage) => !stage.First?
    case Starting(stage, _) => !stage.First?
    case Judging(stage) => !stage.First?
    case Storing => false
    case Failed => false
    case _ => true
  }

  ghost predicate OwnersKnown(s: State) {
    forall r | r in s.regs :: r < |s.adders| && HasStored(s.adders[r])
  }

  ghost predicate SnapshotsHold(s: State) {
    forall a | 0 <= a < |s.adders| && s.adders[a].Starting? && s.adders[a].sawClosed :: s.closed
  }

  ghost predicate Core(s: State) { OneLoop(s) && OwnersKnown(s) && SnapshotsHold(s) }

  lemma StartKeepsCore(s: State, onCaller: bool)
    requires Core(s) && !s.listening
    ensures Core(Started(s, onCaller))
  {
    var s' := Started(s, onCaller);
    assert !IsGone(s'.loops[|s.loops|]);
    assert forall i | 0 <= i < |s.loops| :: s'.loops[i] == s.loops[i];
  }

  lemma LoopKeepsCore(s: State, l: nat, s': State)
    requires Core(s) && l < |s.loops| && !IsGone(s.loops[l])
    requires s'.adders == s.adders && s'.regs <= s.regs && s'.closed == s.closed && s'.listening == s.listening
    requires |s'.loops| == |s.loops| && !IsGone(s'.loops[l])
    requires forall i | 0 <= i < |s.loops| && i != l :: s'.loops[i] == s.loops[i]
    ensures Core(s')
  {}

  lemma CancelKeepsCore(s: State, l: nat)
    requires Core(s) && l < |s.loops|
    ensures Core(s.(loops := s.loops[l := s.loops[l].(cancelled := true)]))
  {
    var s' := s.(loops := s.loops[l := s.loops[l].(cancelled := true)]);
    assert forall i | 0 <= i < |s.loops| :: IsGone(s'.loops[i]) == IsGone(s.loops[i]);
    if s.listening {
      var i :| 0 <= i < |s.loops| && !IsGone(s.loops[i]);
      assert !IsGone(s'.loops[i]);
    }
  }

  lemma ReleaseKeepsCore(s: State, l: nat)
    requires Core(s) && l < |s.loops| && !IsGone(s.loops[l])
    ensures Core(Loop(s, l, Gone).(listening := false))
  {
    var s' := Loop(s, l, Gone).(listening := false);
    assert forall i | 0 <= i < |s'.loops| :: IsGone(s'.loops[i]);
  }

  lemma AdderKeepsCore(cfg: Config, s: State, m: Move, s': State)
    requires Core(s) && Steps(cfg, s, m, s')
    requires m.CheckClosed? || m.CheckActive? || m.Connect? || m.JudgeRefusal? || m.Store? || m.Send? || m.Remove?
    ensures Core(s')
  {
    assert s'.loops == s.loops && s'.listening == s.listening;
  }

  lemma LoopStepKeepsCore(cfg: Config, s: State, m: Move, s': State)
    requires Core(s) && Steps(cfg, s, m, s')
    requires m.StopCleanly? || m.ReadKeep? || m.StopOnError? || m.FailAll? || m.StopSilently?
    ensures Core(s')
  {
    LoopKeepsCore(s, m.l, s');
  }

  lemma CoreKeeps(cfg: Config, s: State, m: Move, s': State)
    requires Core(s) && Steps(cfg, s, m, s')
    ensures Core(s')
  {
    match m
    case NewAdder =>
    case Unregister(_) =>
    case Close =>
    case TryStart(a) =>
      if !s.listening && !s.adders[a].sawClosed {
        StartKeepsCore(Adder(s, a, Onward(s.adders[a].stage)), false);
      }
    case Begin(onCaller, sawClosed) =>
      if !s.listening && !sawClosed {
        StartKeepsCore(s, onCaller);
      }
    case CancelCaller(l) => CancelKeepsCore(s, l);
    case Release(l) => ReleaseKeepsCore(s, l);
    case StopCleanly(_) => LoopStepKeepsCore(cfg, s, m, s');
    case ReadKeep(_, _) => LoopStepKeepsCore(cfg, s, m, s');
    case StopOnError(_) => LoopStepKeepsCore(cfg, s, m, s');
    case FailAll(_) => LoopStepKeepsCore(cfg, s, m, s');
    case StopSilently(_) => LoopStepKeepsCore(cfg, s, m, s');
    case _ => AdderKeepsCore(cfg, s, m, s');
  }

  // ---------------------------------------------------------------- what every step keeps while no caller ends

  /** The adder has seen the gate held after its handler was stored. */
  predicate Committed(pc: AdderPc) { pc.Returned? || (pc.Judging? && pc.stage.Final?) }

  /** A loop that is about to let go of the gate without looking at the registry again. */
  predicate PastLooking(loop: ListenLoop) { loop.pc.Stopping? || loop.pc.Cleared? || loop.pc.Leaving? }

  ghost predicate Watched(s: State, r: nat)
    requires r < |s.adders|
  {
    Committed(s.adders[r]) && !s.closed ==>
      s.listening && forall i | 0 <= i < |s.loops| :: !PastLooking(s.loops[i])
  }

  ghost predicate AllWatched(s: State)
    requires OwnersKnown(s)
  {
    forall r | r in s.regs :: Watched(s, r)
  }

  ghost predicate NoneCancelled(s: State) { forall i | 0 <= i < |s.loops| :: !s.loops[i].cancelled }

  lemma AdderKeepsWatched(cfg: Config, s: State, m: Move, s': State)
    requires Core(s) && AllWatched(s) && Steps(cfg, s, m, s') && Core(s')
    requires m.CheckClosed? || m.CheckActive? || m.Connect? || m.JudgeRefusal? || m.Store? || m.Send? || m.Remove?
    ensures AllWatched(s')
  {
    if m.CheckActive? && s.listening {
      assert forall i | 0 <= i < |s'.loops| :: !PastLooking(s'.loops[i]);
    }
  }

  /** With the mutex free, no loop is past looking. */
  lemma StartKeepsWatched(s: State, s': State)
    requires Core(s') && MutexFree(s) && s'.listening && |s.loops| <= |s'.loops| <= |s.loops| + 1
    requires forall i | 0 <= i < |s.loops| :: s'.loops[i] == s.loops[i]
    requires |s'.loops| > |s.loops| ==> s'.loops[|s.loops|].pc.Receiving?
    ensures AllWatched(s')
  {
    forall i | 0 <= i < |s'.loops| ensures !PastLooking(s'.loops[i]) {
      if i < |s.loops| {
        assert !HoldsMutex(s.loops[i].pc);
      }
    }
  }

  lemma TryStartKeepsWatched(s: State, a: nat)
    requires Core(s) && AllWatched(s) && a < |s.adders| && s.adders[a].Starting? && MutexFree(s)
    requires Core(DoTryStart(s, a))
    ensures AllWatched(DoTryStart(s, a))
  {
    var s' := DoTryStart(s, a);
    if s'.listening {
      StartKeepsWatched(s, s');
    }
  }

  lemma LoopKeepsWatched(cfg: Config, s: State, m: Move, s': State)
    requires Core(s) && AllWatched(s) && NoneCancelled(s) && Steps(cfg, s, m, s') && Core(s')
    requires m.StopCleanly? || m.ReadKeep? || m.StopOnError? || m.FailAll? || m.StopSilently?
    ensures AllWatched(s')
  {
    assert forall i | 0 <= i < |s.loops| :: i != m.l ==> s'.loops[i] == s.loops[i];
  }

  lemma ReleaseKeepsWatched(cfg: Config, s: State, l: nat, s': State)
    requires Core(s) && AllWatched(s) && Steps(cfg, s, Release(l), s') && Core(s')
    ensures AllWatched(s')
  {
    assert PastLooking(s.loops[l]);
    assert forall r | r in s'.regs :: Watched(s, r);
  }

  lemma CancelKeepsWatched(s: State, l: nat, s': State)
    requires Core(s) && AllWatched(s) && l < |s.loops| && Core(s')
    requires s' == s.(loops := s.loops[l := s.loops[l].(cancelled := true)])
    ensures AllWatched(s')
  {
    assert forall i | 0 <= i < |s.loops| :: PastLooking(s'.loops[i]) == PastLooking(s.loops[i]);
    assert forall r | r in s'.regs :: Watched(s, r);
  }

  ghost predicate Inv(s: State) { Core(s) && AllWatched(s) }

  lemma StepKeeps(cfg: Config, s: State, m: Move, s': State)
    requires Inv(s) && NoneCancelled(s) && Steps(cfg, s, m, s')
    ensures Inv(s')
  {
    CoreKeeps(cfg, s, m, s');
    match m
    case NewAdder => assert forall r | r in s'.regs :: Watched(s, r);
    case Unregister(_) => assert forall r | r in s'.regs :: Watched(s, r);
    case Close =>
    case TryStart(a) => TryStartKeepsWatched(s, a);
    case Begin(_, _) =>
      if s'.listening {
        StartKeepsWatched(s, s');
      }
    case CancelCaller(l) => CancelKeepsWatched(s, l, s');
    case Release(l) => ReleaseKeepsWatched(cfg, s, l, s');
    case StopCleanly(_) => LoopKeepsWatched(cfg, s, m, s');
    case ReadKeep(_, _) => LoopKeepsWatched(cfg, s, m, s');
    case StopOnError(_) => LoopKeepsWatched(cfg, s, m, s');
    case FailAll(_) => LoopKeepsWatched(cfg, s, m, s');
    case StopSilently(_) => LoopKeepsWatched(cfg, s, m, s');
    case _ => AdderKeepsWatched(cfg, s, m, s');
  }

  lemma {:induction false} BehaviourKeepsCore(cfg: Config, trace: seq<State>, i: nat)
    requires Behaviour(cfg, trace) && i < |trace|
    ensures Core(trace[i])
  {
    if i > 0 {
      BehaviourKeepsCore(cfg, trace, i - 1);
      assert NextAt(cfg, trace, i - 1);
      var m: Move :| Steps(cfg, trace[i - 1], m, trace[i]);
      CoreKeeps(cfg, trace[i - 1], m, trace[i]);
    }
  }

  lemma {:induction false} BehaviourKeepsInv(cfg: Config, trace: seq<State>, i: nat)
    requires Behaviour(cfg, trace) && i < |trace| && forall j | 0 <= j < i :: NoneCancelled(trace[j])
    ensures Inv(trace[i])
  {
    if i > 0 {
      BehaviourKeepsInv(cfg, trace, i - 1);
      assert NextAt(cfg, trace, i - 1);
      var m: Move :| Steps(cfg, trace[i - 1], m, trace[i]);
      StepKeeps(cfg, trace[i - 1], m, trace[i]);
    }
  }

  // ---------------------------------------------------------------- no registration is orphaned

  ghost predicate HasLoop(s: State) {
    exists i :: 0 <= i < |s.loops| && !IsGone(s.loops[i])
  }

  /** While the stream is open, a registration whose add has returned has a loop. */
  ghost predicate NoneOrphaned(s: State) {
    forall r | r in s.regs && r < |s.adders| && s.adders[r].Returned? && !s.closed :: HasLoop(s)
  }

  /** An add that failed leaves nothing registered. */
  ghost predicate FailuresLeaveNothing(s: State) {
    forall r | 0 <= r < |s.adders| && s.adders[r].Failed? :: r !in s.regs
  }

  /**
   In every run there is at most one loop and a failed add leaves nothing; and until a caller's context ends
   under its loop, no registration is orphaned.
   */
  lemma GateIsSafe(cfg: Config, trace: seq<State>, i: nat)
    requires Behaviour(cfg, trace) && i < |trace|
    ensures OneLoop(trace[i]) && FailuresLeaveNothing(trace[i])
    ensures (forall j | 0 <= j < i :: NoneCancelled(trace[j])) ==> NoneOrphaned(trace[i])
  {
    BehaviourKeepsCore(cfg, trace, i);
    if forall j | 0 <= j < i :: NoneCancelled(trace[j]) {
      BehaviourKeepsInv(cfg, trace, i);
    }
  }

  /** Loops on the listener's lifecycle are never cancelled. */
  ghost predicate OnlyCallersCancelled(cfg: Config, s: State) {
    forall i | 0 <= i < |s.loops| && (s.loops[i].onCaller || s.loops[i].cancelled) ::
      cfg.callerLoops && s.loops[i].onCaller
  }

  lemma {:induction false} OnlyCallersEnd(cfg: Config, trace: seq<State>, i: nat)
    requires Behaviour(cfg, trace) && i < |trace|
    ensures OnlyCallersCancelled(cfg, trace[i])
  {
    if i > 0 {
      OnlyCallersEnd(cfg, trace, i - 1);
      assert NextAt(cfg, trace, i - 1);
      var m: Move :| Steps(cfg, trace[i - 1], m, trace[i]);
      OnlyCallersEndStep(cfg, trace[i - 1], m, trace[i]);
    }
  }

  lemma OnlyCallersEndStep(cfg: Config, s: State, m: Move, s': State)
    requires Steps(cfg, s, m, s') && OnlyCallersCancelled(cfg, s)
    ensures OnlyCallersCancelled(cfg, s')
  {}

  // ---------------------------------------------------------------- loops on a caller's context

  lemma Extend(cfg: Config, trace: seq<State>, m: Move) returns (longer: seq<State>)
    requires Behaviour(cfg, trace) && Enabled(cfg, trace[|trace| - 1], m)
    ensures Behaviour(cfg, longer)
    ensures longer[|longer| - 1] == Do(cfg, trace[|trace| - 1], m)
  {
    var s := trace[|trace| - 1];
    longer := trace + [Do(cfg, s, m)];
    assert Steps(cfg, s, m, Do(cfg, s, m));
    forall i | 0 <= i < |longer| - 1 ensures NextAt(cfg, longer, i) {
      if i < |trace| - 1 {
        assert NextAt(cfg, trace, i);
        assert longer[i] == trace[i] && longer[i + 1] == trace[i + 1];
      }
    }
  }

  /** A caller listens on its own context, and an add finds the gate held each time it looks. */
  lemma AddDuringListen(cfg: Config) returns (trace: seq<State>)
    requires cfg.callerLoops
    ensures Behaviour(cfg, trace)
    ensures trace[|trace| - 1] == State([Returned], [ListenLoop(Receiving, true, false)], {0}, true, false)
  {
    var loops := [ListenLoop(Receiving, true, false)];
    trace := Extend(cfg, [Init], Begin(true, false));
    assert trace[|trace| - 1] == State([], loops, {}, true, false);
    trace := Extend(cfg, trace, NewAdder);
    trace := Extend(cfg, trace, CheckClosed(0));
    assert trace[|trace| - 1] == State([Probing(First)], loops, {}, true, false);
    trace := Extend(cfg, trace, CheckActive(0));
    assert trace[|trace| - 1] == State([Storing], loops, {}, true, false);
    trace := Extend(cfg, trace, Store(0));
    trace := Extend(cfg, trace, Send(0, true));
    assert trace[|trace| - 1] == State([Opening(Final)], loops, {0}, true, false);
    trace := Extend(cfg, trace, CheckClosed(0));
    assert trace[|trace| - 1] == State([Probing(Final)], loops, {0}, true, false);
    trace := Extend(cfg, trace, CheckActive(0));
  }

  /** A caller listens, a handler is added, and the caller's context ends: the handler stays without a loop. */
  lemma CallerLoopOrphans(cfg: Config) returns (trace: seq<State>)
    requires cfg.callerLoops
    ensures Behaviour(cfg, trace) && !NoneOrphaned(trace[|trace| - 1])
  {
    trace := AddDuringListen(cfg);
    trace := Extend(cfg, trace, CancelCaller(0));
    assert trace[|trace| - 1] == State([Returned], [ListenLoop(Receiving, true, true)], {0}, true, false);
    trace := Extend(cfg, trace, StopSilently(0));
    assert trace[|trace| - 1] == State([Returned], [ListenLoop(Leaving, true, true)], {0}, true, false);
    trace := Extend(cfg, trace, Release(0));
    assert trace[|trace| - 1] == State([Returned], [ListenLoop(Gone, true, true)], {0}, false, false);
  }

  ghost predicate NeverOrphans(cfg: Config) {
    forall trace | Behaviour(cfg, trace) :: NoneOrphaned(trace[|trace| - 1])
  }

  /** Registrations are never orphaned exactly when no loop may be started on a caller's context. */
  lemma OrphanFreeExactly(cfg: Config)
    ensures NeverOrphans(cfg) <==> !cfg.callerLoops
  {
    if cfg.callerLoops {
      var trace := CallerLoopOrphans(cfg);
    } else {
      forall trace | Behaviour(cfg, trace) ensures NoneOrphaned(trace[|trace| - 1]) {
        forall j | 0 <= j < |trace| ensures NoneCancelled(trace[j]) {
          OnlyCallersEnd(cfg, trace, j);
        }
        GateIsSafe(cfg, trace, |trace| - 1);
      }
    }
  }

  // ---------------------------------------------------------------- what an add does

  lemma StepFrom(cfg: Config, trace: seq<State>, n: nat, next: nat) returns (m: Move)
    requires Behaviour(cfg, trace) && next == n + 1 && next < |trace|
    ensures Steps(cfg, trace[n], m, trace[next])
  {
    assert NextAt(cfg, trace, n);
    m :| Steps(cfg, trace[n], m, trace[next]);
  }

  /** Why an add is given up: the stream is closed, it cannot be opened, or the second attempt to send fails too. */
  ghost predicate GivesUp(s: State, m: Move, a: nat) {
    match m
    case CheckClosed(x) => x == a && s.closed
    case JudgeRefusal(x) => x == a && s.closed
    case Connect(x, ok) => x == a && !ok
    case Send(x, ok) => x == a && !ok && a < |s.adders| && s.adders[a].SendingAgain?
    case _ => false
  }

  ghost predicate GivesUpAt(cfg: Config, trace: seq<State>, j: nat, a: nat) {
    j < |trace| - 1 && exists m: Move :: Steps(cfg, trace[j], m, trace[j + 1]) && GivesUp(trace[j], m, a)
  }

  predicate GivenUp(pc: AdderPc) { pc.Removing? || pc.Failed? }

  lemma GivenUpNext(cfg: Config, s: State, m: Move, s': State, a: nat)
    requires Steps(cfg, s, m, s') && a < |s'.adders|
    ensures GivenUp(s'.adders[a]) <==> a < |s.adders| && (GivenUp(s.adders[a]) || GivesUp(s, m, a))
  {}

  /** In every run an add has failed, or is about to, exactly if it had one of these reasons to. */
  lemma {:induction false} AddFailsExactly(cfg: Config, trace: seq<State>, i: nat, a: nat)
    requires Behaviour(cfg, trace) && i < |trace| && a < |trace[i].adders|
    ensures GivenUp(trace[i].adders[a]) <==> exists j | 0 <= j < i :: GivesUpAt(cfg, trace, j, a)
  {
    var n := i - 1;
    var m := StepFrom(cfg, trace, n, i);
    GivenUpNext(cfg, trace[n], m, trace[i], a);
    if a < |trace[n].adders| {
      AddFailsExactly(cfg, trace, n, a);
      if !GivenUp(trace[n].adders[a]) {
        GivesUpOneWay(cfg, trace, n, a, m);
      }
    } else {
      NeverGivenUpBefore(cfg, trace, n, a, i);
    }
  }

  /** Whatever move explains the step, it gives the add up or none does. */
  lemma GivesUpOneWay(cfg: Config, trace: seq<State>, n: nat, a: nat, m: Move)
    requires n < |trace| - 1 && Steps(cfg, trace[n], m, trace[n + 1])
    requires a < |trace[n].adders| && !GivenUp(trace[n].adders[a])
    ensures GivesUpAt(cfg, trace, n, a) <==> GivesUp(trace[n], m, a)
  {
    if GivesUpAt(cfg, trace, n, a) {
      var x: Move :| Steps(cfg, trace[n], x, trace[n + 1]) && GivesUp(trace[n], x, a);
      GivenUpNext(cfg, trace[n], x, trace[n + 1], a);
      GivenUpNext(cfg, trace[n], m, trace[n + 1], a);
    }
  }

  lemma {:induction false} FewerAdders(cfg: Config, trace: seq<State>, j: nat, n: nat)
    requires Behaviour(cfg, trace) && j <= n < |trace|
    ensures |trace[j].adders| <= |trace[n].adders|
    decreases n
  {
    if j < n {
      FewerAdders(cfg, trace, j, n - 1);
      var m := StepFrom(cfg, trace, n - 1, n);
    }
  }

  lemma NeverGivenUpBefore(cfg: Config, trace: seq<State>, n: nat, a: nat, i: nat)
    requires Behaviour(cfg, trace) && i == n + 1 && i < |trace| && |trace[n].adders| <= a
    ensures forall j | 0 <= j < i :: !GivesUpAt(cfg, trace, j, a)
  {
    forall j | 0 <= j < i ensures !GivesUpAt(cfg, trace, j, a) {
      FewerAdders(cfg, trace, j, n);
    }
  }

  /** The step takes the handler of add `a` out of the registry after it was stored. */
  ghost predicate TakesOut(s: State, m: Move, a: nat) {
    && a < |s.adders| && HasStored(s.adders[a])
    && (m == Unregister(a) || m.FailAll?)
  }

  ghost predicate TakesOutAt(cfg: Config, trace: seq<State>, j: nat, a: nat) {
    j < |trace| - 1 && exists m: Move :: Steps(cfg, trace[j], m, trace[j + 1]) && TakesOut(trace[j], m, a)
  }

  lemma StoredNext(cfg: Config, s: State, m: Move, s': State, a: nat)
    requires Steps(cfg, s, m, s') && a < |s'.adders| && HasStored(s'.adders[a])
    ensures a < |s.adders| && (m == Store(a) || HasStored(s.adders[a]))
    ensures m == Store(a) ==> a in s'.regs
    ensures HasStored(s.adders[a]) && a in s.regs ==> a in s'.regs || TakesOut(s, m, a)
  {}

  /**
   In every run the handler of an add that has come past its registration, and was not given up, is registered,
   unless it was unregistered or a loop has failed every handler since.
   */
  lemma {:induction false} StoredIsRegistered(cfg: Config, trace: seq<State>, i: nat, a: nat)
    requires Behaviour(cfg, trace) && i < |trace| && a < |trace[i].adders| && HasStored(trace[i].adders[a])
    ensures a in trace[i].regs || exists j | 0 <= j < i :: TakesOutAt(cfg, trace, j, a)
  {
    var n := i - 1;
    var m := StepFrom(cfg, trace, n, i);
    StoredNext(cfg, trace[n], m, trace[i], a);
    if m != Store(a) {
      StoredIsRegistered(cfg, trace, n, a);
      if a in trace[n].regs && a !in trace[i].regs {
        assert TakesOutAt(cfg, trace, n, a);
      }
    }
  }
}
