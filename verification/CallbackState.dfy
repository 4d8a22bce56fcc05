/**
 The callback state of the durable task listener: waiters for event-log entries, completions that
 arrived before their waiter, and the terminal state that answers everyone.

 A waiter's channel is a number; `inbox[c]` lists every send attempted on channel `c`.  The real
 channels hold one message and are sent to without blocking, so a send is lost exactly when it is not
 the first.  All methods run under one mutex, so a run is a list of operations.
 */
module CallbackState {
  import opened Options

  datatype Key = Key(task: string, invocation: int, node: int, branch: int)
  datatype Invocation = Invocation(task: string, count: int)

  datatype Failure = Stopped | CleanedUp(task: string, invocation: int) | FromEngine(message: string)
  datatype Result = Completed(resp: nat) | Failed(err: Failure)
  datatype Buffered = Buffered(resp: nat, expiresAt: int)

  const COMPLETION_BUFFER_TTL := 10_000
  const RESEND_MIN_PENDING := 2_000

  datatype Callbacks = Callbacks(
    pending: map<Key, nat>,
    newly: set<Key>,
    registeredAt: map<Key, int>,
    buffered: map<Key, Buffered>,
    orders: map<Invocation, int>,
    terminalErr: Option<Failure>,
    inbox: seq<seq<Result>>)

  const Init := Callbacks(map[], {}, map[], map[], map[], None, [])

  // ---------------------------------------------------------------- what each operation does

  function Send(inbox: seq<seq<Result>>, c: nat, r: Result): seq<seq<Result>> {
    if c < |inbox| then inbox[c := inbox[c] + [r]] else inbox
  }

  /** One send to each channel of `chans`, the rest untouched. */
  function SendAll(inbox: seq<seq<Result>>, chans: set<nat>, r: Result): seq<seq<Result>> {
    seq(|inbox|, c requires 0 <= c < |inbox| => if c in chans then inbox[c] + [r] else inbox[c])
  }

  function Forget(s: Callbacks, keys: set<Key>): Callbacks {
    s.(pending := s.pending - keys, newly := s.newly - keys, registeredAt := s.registeredAt - keys)
  }

  function Prune(s: Callbacks, now: int): Callbacks {
    s.(buffered := map k | k in s.buffered && s.buffered[k].expiresAt > now :: s.buffered[k])
  }

  /** The new channel already holds its only message. */
  function Answered(s: Callbacks, r: Result): Callbacks {
    s.(inbox := s.inbox + [[r]])
  }

  function Enrolled(s: Callbacks, key: Key, now: int): Callbacks {
    s.(pending := s.pending[key := |s.inbox|], newly := s.newly + {key},
       registeredAt := s.registeredAt[key := now], inbox := s.inbox + [[]])
  }

  function Added(s: Callbacks, key: Key, now: int): Callbacks {
    if s.terminalErr.Some? then Answered(s, Failed(s.terminalErr.value))
    else
      var p := Prune(s, now);
      if key in p.buffered then
        Answered(p.(buffered := p.buffered - {key}), Completed(p.buffered[key].resp))
      else
        Enrolled(p, key, now)
  }

  function HighestOrders(orders: map<Invocation, int>, inv: Invocation, order: Option<int>): map<Invocation, int> {
    match order
    case None => orders
    case Some(o) =>
      var had := if inv in orders then orders[inv] else 0;
      orders[inv := if had >= o then had else o]
  }

  function CompletedEntry(s: Callbacks, key: Key, resp: nat, order: Option<int>, now: int): Callbacks {
    if s.terminalErr.Some? then s
    else
      var p := Prune(s, now).(orders := HighestOrders(s.orders, Invocation(key.task, key.invocation), order));
      if key in p.pending then
        Forget(p, {key}).(inbox := Send(p.inbox, p.pending[key], Completed(resp)))
      else
        p.(buffered := p.buffered[key := Buffered(resp, now + COMPLETION_BUFFER_TTL)])
  }

  function FailedEntry(s: Callbacks, key: Key, err: Failure): Callbacks {
    if s.terminalErr.Some? || key !in s.pending then s
    else Forget(s, {key}).(inbox := Send(s.inbox, s.pending[key], Failed(err)))
  }

  predicate Covers(task: string, invocation: int, k: Key) {
    k.task == task && k.invocation <= invocation
  }

  function CleanedUpState(s: Callbacks, task: string, invocation: int): Callbacks {
    var gone := set k | k in s.pending && Covers(task, invocation, k);
    var chans := set k | k in gone :: s.pending[k];
    Forget(s, gone).(
      buffered := map k | k in s.buffered && !Covers(task, invocation, k) :: s.buffered[k],
      orders := map i | i in s.orders && !(i.task == task && i.count <= invocation) :: s.orders[i],
      inbox := SendAll(s.inbox, chans, Failed(CleanedUp(task, invocation))))
  }

  function Terminated(s: Callbacks, err: Failure): Callbacks {
    Callbacks(map[], {}, map[], map[], s.orders, Some(err), SendAll(s.inbox, s.pending.Values, Failed(err)))
  }

  // ---------------------------------------------------------------- the invariant

  /** Every send was the first on its channel, so none was dropped. */
  ghost predicate SentOnce(s: Callbacks) {
    forall c | 0 <= c < |s.inbox| :: |s.inbox[c]| <= 1
  }

  ghost predicate KeysAgree(s: Callbacks) {
    && s.pending.Keys == s.registeredAt.Keys
    && s.newly <= s.pending.Keys
    && s.pending.Keys !! s.buffered.Keys
    && (s.terminalErr.Some? ==> s.pending == map[] && s.buffered == map[])
  }

  /** A pending channel has one key and nothing in it yet. */
  ghost predicate ChannelsFree(s: Callbacks) {
    && (forall k | k in s.pending :: s.pending[k] < |s.inbox| && s.inbox[s.pending[k]] == [])
    && (forall k, k' | k in s.pending && k' in s.pending :: s.pending[k] == s.pending[k'] ==> k == k')
  }

  ghost predicate Inv(s: Callbacks) {
    KeysAgree(s) && ChannelsFree(s) && SentOnce(s)
  }

  datatype Op =
    | Add(key: Key, now: int)
    | Complete(key: Key, resp: nat, order: Option<int>, now: int)
    | Fail(key: Key, err: Failure)
    | CleanUp(task: string, invocation: int)
    | Remove(key: Key)
    | Terminate(err: Failure)
    | Restart
    | TakeNewly
    | TakeAll

  function Apply(s: Callbacks, op: Op): Callbacks {
    match op
    case Add(key, now) => Added(s, key, now)
    case Complete(key, resp, order, now) => CompletedEntry(s, key, resp, order, now)
    case Fail(key, err) => FailedEntry(s, key, err)
    case CleanUp(task, invocation) => CleanedUpState(s, task, invocation)
    case Remove(key) => Forget(s, {key})
    case Terminate(err) => Terminated(s, err)
    case Restart => s.(terminalErr := None)
    case TakeNewly => s.(newly := {})
    case TakeAll => s.(newly := {})
  }

  lemma AnsweredKeeps(s: Callbacks, r: Result)
    requires Inv(s)
    ensures Inv(Answered(s, r))
  {}

  lemma EnrolledIsFree(s: Callbacks, key: Key, now: int)
    requires Inv(s)
    ensures ChannelsFree(Enrolled(s, key, now)) && SentOnce(Enrolled(s, key, now))
  {}

  lemma EnrolledKeeps(s: Callbacks, key: Key, now: int)
    requires Inv(s) && s.terminalErr.None? && key !in s.buffered
    ensures Inv(Enrolled(s, key, now))
  {
    EnrolledIsFree(s, key, now);
  }

  lemma PruneKeeps(s: Callbacks, now: int)
    requires Inv(s)
    ensures Inv(Prune(s, now))
  {}

  lemma AddKeeps(s: Callbacks, key: Key, now: int)
    requires Inv(s)
    ensures Inv(Added(s, key, now))
  {
    if s.terminalErr.Some? {
      AnsweredKeeps(s, Failed(s.terminalErr.value));
    } else {
      var p := Prune(s, now);
      PruneKeeps(s, now);
      if key in p.buffered {
        AnsweredKeeps(p.(buffered := p.buffered - {key}), Completed(p.buffered[key].resp));
      } else {
        EnrolledKeeps(p, key, now);
      }
    }
  }

  function Delivered(s: Callbacks, key: Key, r: Result): Callbacks
    requires key in s.pending
  {
    Forget(s, {key}).(inbox := Send(s.inbox, s.pending[key], r))
  }

  lemma DeliveredKeeps(s: Callbacks, key: Key, r: Result)
    requires Inv(s) && key in s.pending
    ensures Inv(Delivered(s, key, r))
  {}

  lemma CompleteKeeps(s: Callbacks, key: Key, resp: nat, order: Option<int>, now: int)
    requires Inv(s)
    ensures Inv(CompletedEntry(s, key, resp, order, now))
  {
    if s.terminalErr.None? {
      PruneKeeps(s, now);
      var p := Prune(s, now).(orders := HighestOrders(s.orders, Invocation(key.task, key.invocation), order));
      if key in p.pending {
        DeliveredKeeps(p, key, Completed(resp));
      }
    }
  }

  lemma ForgetKeeps(s: Callbacks, gone: set<Key>)
    requires Inv(s)
    ensures Inv(Forget(s, gone))
  {}

  /** Sending once to channels that are empty and no longer pending. */
  lemma SendAllKeeps(s: Callbacks, chans: set<nat>, r: Result)
    requires Inv(s) && forall c | c in chans :: c < |s.inbox| && s.inbox[c] == []
    requires forall k | k in s.pending :: s.pending[k] !in chans
    ensures Inv(s.(inbox := SendAll(s.inbox, chans, r)))
  {}

  lemma CleanUpKeeps(s: Callbacks, task: string, invocation: int)
    requires Inv(s)
    ensures Inv(CleanedUpState(s, task, invocation))
  {
    var gone := set k | k in s.pending && Covers(task, invocation, k);
    var chans := set k | k in gone :: s.pending[k];
    forall c | c in chans ensures c < |s.inbox| && s.inbox[c] == [] {
      var k :| k in gone && s.pending[k] == c;
    }
    ForgetKeeps(s, gone);
    SendAllKeeps(Forget(s, gone), chans, Failed(CleanedUp(task, invocation)));
  }

  lemma TerminateKeeps(s: Callbacks, err: Failure)
    requires Inv(s)
    ensures Inv(Terminated(s, err))
  {
    forall c | c in s.pending.Values ensures c < |s.inbox| && s.inbox[c] == [] {
      var k :| k in s.pending && s.pending[k] == c;
    }
  }

  lemma ApplyKeeps(s: Callbacks, op: Op)
    requires Inv(s)
    ensures Inv(Apply(s, op))
  {
    match op
    case Add(key, now) => AddKeeps(s, key, now);
    case Complete(key, resp, order, now) => CompleteKeeps(s, key, resp, order, now);
    case Fail(key, err) =>
      if s.terminalErr.None? && key in s.pending {
        DeliveredKeeps(s, key, Failed(err));
      }
    case Remove(key) => ForgetKeeps(s, {key});
    case CleanUp(task, invocation) => CleanUpKeeps(s, task, invocation);
    case Terminate(err) => TerminateKeeps(s, err);
    case _ =>
  }

  ghost function Run(ops: seq<Op>): Callbacks {
    if ops == [] then Init else Apply(Run(ops[..|ops| - 1]), ops[|ops| - 1])
  }

  /** In every run the keys agree, a terminal state holds nothing, and no send is dropped. */
  lemma {:induction false} EveryRunKeeps(ops: seq<Op>)
    ensures Inv(Run(ops))
  {
    if ops != [] {
      EveryRunKeeps(ops[..|ops| - 1]);
      ApplyKeeps(Run(ops[..|ops| - 1]), ops[|ops| - 1]);
    }
  }

  // ---------------------------------------------------------------- a channel nobody will send to

  /** The channel is empty and no key leads to it. */
  ghost predicate Lost(s: Callbacks, c: nat) {
    c < |s.inbox| && s.inbox[c] == [] && forall k | k in s.pending :: s.pending[k] != c
  }

  lemma AddKeepsLost(s: Callbacks, key: Key, now: int, c: nat)
    requires Lost(s, c)
    ensures Lost(Added(s, key, now), c)
  {}

  lemma CleanUpKeepsLost(s: Callbacks, task: string, invocation: int, c: nat)
    requires Lost(s, c)
    ensures Lost(CleanedUpState(s, task, invocation), c)
  {
    var gone := set k | k in s.pending && Covers(task, invocation, k);
    assert c !in set k | k in gone :: s.pending[k];
  }

  lemma TerminateKeepsLost(s: Callbacks, err: Failure, c: nat)
    requires Lost(s, c)
    ensures Lost(Terminated(s, err), c)
  {
    assert c !in s.pending.Values;
  }

  /** Once lost, a channel stays lost, whatever comes, further registrations included. */
  lemma LostStays(s: Callbacks, op: Op, c: nat)
    requires Lost(s, c)
    ensures Lost(Apply(s, op), c)
  {
    match op
    case Add(key, now) => AddKeepsLost(s, key, now, c);
    case CleanUp(task, invocation) => CleanUpKeepsLost(s, task, invocation, c);
    case Terminate(err) => TerminateKeepsLost(s, err, c);
    case _ =>
  }

  /** Registering a key that is pending loses the channel that was waiting for it. */
  lemma AddLosesPending(s: Callbacks, key: Key, now: int)
    requires Inv(s) && key in s.pending
    ensures Lost(Added(s, key, now), s.pending[key])
  {
    assert key !in s.buffered;
  }

  ghost function RunFrom(s: Callbacks, ops: seq<Op>): Callbacks {
    if ops == [] then s else Apply(RunFrom(s, ops[..|ops| - 1]), ops[|ops| - 1])
  }

  /** Two overlapping waits for one key, in any state: the first is neither pending nor answered, whatever comes. */
  lemma {:induction false} OverlapForgetsFirst(s: Callbacks, key: Key, now: int, later: seq<Op>)
    requires Inv(s) && key in s.pending
    ensures Lost(RunFrom(Added(s, key, now), later), s.pending[key])
  {
    if later == [] {
      AddLosesPending(s, key, now);
    } else {
      var init := later[..|later| - 1];
      OverlapForgetsFirst(s, key, now, init);
      LostStays(RunFrom(Added(s, key, now), init), later[|later| - 1], s.pending[key]);
    }
  }

  // ---------------------------------------------------------------- waiters

  datatype Waiter = Waiter(key: Key, done: bool)

  /** Waiter `c` waits on channel `c`. */
  datatype World = World(cb: Callbacks, waiters: seq<Waiter>)

  datatype Move =
    | Register(key: Key, now: int)
    | Receive(c: nat)
    | Cancel(c: nat)
    | Other(op: Op)

  predicate Waiting(w: World, c: nat) { c < |w.waiters| && !w.waiters[c].done }

  /** Waits for one key may overlap; a waiter leaves with its result, or removes its key and leaves. */
  predicate Enabled(w: World, m: Move) {
    match m
    case Register(_, _) => true
    case Receive(c) => Waiting(w, c) && c < |w.cb.inbox| && |w.cb.inbox[c]| == 1
    case Cancel(c) => Waiting(w, c)
    case Other(op) => !op.Add? && !op.Remove?
  }

  function Finish(w: World, c: nat): seq<Waiter>
    requires c < |w.waiters|
  {
    w.waiters[c := w.waiters[c].(done := true)]
  }

  ghost function Do(w: World, m: Move): World
    requires Enabled(w, m)
  {
    match m
    case Register(key, now) => World(Added(w.cb, key, now), w.waiters + [Waiter(key, false)])
    case Receive(c) => w.(waiters := Finish(w, c))
    case Cancel(c) => World(Forget(w.cb, {w.waiters[c].key}), Finish(w, c))
    case Other(op) => w.(cb := Apply(w.cb, op))
  }

  ghost predicate Steps(w: World, m: Move, w': World) { Enabled(w, m) && w' == Do(w, m) }

  ghost predicate StepsAt(trace: seq<World>, ms: seq<Move>, i: int)
    requires 0 <= i < |ms| < |trace|
  {
    Steps(trace[i], ms[i], trace[i + 1])
  }

  ghost predicate Behaviour(trace: seq<World>, ms: seq<Move>) {
    |trace| == |ms| + 1 && trace[0] == World(Init, []) && forall i | 0 <= i < |ms| :: StepsAt(trace, ms, i)
  }

  /** A pending key leads to the channel of a waiter for it that has not left. */
  ghost predicate WorldInv(w: World) {
    && Inv(w.cb)
    && |w.waiters| == |w.cb.inbox|
    && (forall k | k in w.cb.pending :: w.waiters[w.cb.pending[k]] == Waiter(k, false))
  }

  /** After a registration its key leads to the new channel, and the other keys to theirs. */
  lemma PendingAfterAdd(s: Callbacks, key: Key, now: int, k: Key)
    requires Inv(s) && k in Added(s, key, now).pending
    ensures k != key ==> k in s.pending
    ensures Added(s, key, now).pending[k] == if k == key then |s.inbox| else s.pending[k]
  {}

  lemma RegisterKeeps(w: World, key: Key, now: int)
    requires WorldInv(w)
    ensures WorldInv(Do(w, Register(key, now)))
  {
    var cb' := Added(w.cb, key, now);
    AddKeeps(w.cb, key, now);
    forall k | k in cb'.pending
      ensures (w.waiters + [Waiter(key, false)])[cb'.pending[k]] == Waiter(k, false)
    {
      PendingAfterAdd(w.cb, key, now, k);
    }
  }

  /** Operations on the state drop a pending key only by sending to its channel, and send to no other. */
  ghost predicate OnlyAnswers(s: Callbacks, s': Callbacks) {
    && |s'.inbox| == |s.inbox|
    && (forall k | k in s'.pending :: k in s.pending && s'.pending[k] == s.pending[k])
    && (forall c | 0 <= c < |s.inbox| :: |s.inbox[c]| <= |s'.inbox[c]|)
    && (forall k | k in s.pending && k !in s'.pending && s.pending[k] < |s.inbox| :: |s'.inbox[s.pending[k]]| >= 1)
  }

  lemma OtherOnlyAnswers(s: Callbacks, op: Op)
    requires !op.Add? && !op.Remove?
    ensures OnlyAnswers(s, Apply(s, op))
  {
    match op
    case CleanUp(task, invocation) => CleanUpOnlyAnswers(s, task, invocation);
    case Terminate(err) => TerminateOnlyAnswers(s, err);
    case _ =>
  }

  lemma CleanUpOnlyAnswers(s: Callbacks, task: string, invocation: int)
    ensures OnlyAnswers(s, CleanedUpState(s, task, invocation))
  {}

  lemma TerminateOnlyAnswers(s: Callbacks, err: Failure)
    ensures OnlyAnswers(s, Terminated(s, err))
  {}

  lemma LeaveKeeps(w: World, m: Move)
    requires WorldInv(w) && Enabled(w, m) && (m.Receive? || m.Cancel?)
    ensures WorldInv(Do(w, m))
  {
    var w' := Do(w, m);
    if m.Cancel? {
      ApplyKeeps(w.cb, Remove(w.waiters[m.c].key));
    }
    forall k | k in w'.cb.pending ensures w'.waiters[w'.cb.pending[k]] == Waiter(k, false) {
      assert w.waiters[w.cb.pending[k]] == Waiter(k, false);
    }
  }

  lemma StepKeeps(w: World, m: Move, w': World)
    requires WorldInv(w) && Steps(w, m, w')
    ensures WorldInv(w')
  {
    match m
    case Register(key, now) => RegisterKeeps(w, key, now);
    case Other(op) =>
      ApplyKeeps(w.cb, op);
      OtherOnlyAnswers(w.cb, op);
    case _ => LeaveKeeps(w, m);
  }

  lemma {:induction false} BehaviourKeepsInv(trace: seq<World>, ms: seq<Move>, i: nat)
    requires Behaviour(trace, ms) && i <= |ms|
    ensures WorldInv(trace[i])
  {
    if i > 0 {
      BehaviourKeepsInv(trace, ms, i - 1);
      assert StepsAt(trace, ms, i - 1);
      StepKeeps(trace[i - 1], ms[i - 1], trace[i]);
    }
  }

  // ---------------------------------------------------------------- which waiters are forgotten

  ghost predicate Pending(w: World, c: nat) {
    Waiting(w, c) && w.waiters[c].key in w.cb.pending && w.cb.pending[w.waiters[c].key] == c
  }

  ghost predicate Served(w: World, c: nat)
    requires c < |w.waiters|
  {
    Pending(w, c) || (c < |w.cb.inbox| && |w.cb.inbox[c]| == 1)
  }

  /** While waiter `c` is pending its key is registered again, or another waiter for it leaves. */
  ghost predicate Displaces(w: World, m: Move, c: nat) {
    && Pending(w, c)
    && match m
       case Register(key, _) => key == w.waiters[c].key
       case Cancel(d) => d != c && d < |w.waiters| && w.waiters[d].key == w.waiters[c].key
       case _ => false
  }

  /** A waiter that stays is served afterwards exactly when it was and was not displaced. */
  lemma ServedNext(w: World, m: Move, w': World, c: nat)
    requires WorldInv(w) && Steps(w, m, w') && Waiting(w, c) && Waiting(w', c)
    ensures Served(w', c) <==> Served(w, c) && !Displaces(w, m, c)
  {
    match m
    case Register(key, now) => RegisterServes(w, key, now, c);
    case Receive(_) => assert w'.waiters[c] == w.waiters[c];
    case Cancel(d) => CancelServes(w, d, c);
    case Other(op) => OtherServes(w, op, c);
  }

  lemma NotServedIsLost(w: World, c: nat)
    requires WorldInv(w) && Waiting(w, c)
    ensures Served(w, c) <==> !Lost(w.cb, c)
  {}

  lemma RegisterServes(w: World, key: Key, now: int, c: nat)
    requires WorldInv(w) && Waiting(w, c)
    ensures var m := Register(key, now); Served(Do(w, m), c) <==> Served(w, c) && !Displaces(w, m, c)
  {
    var w' := Do(w, Register(key, now));
    RegisterKeeps(w, key, now);
    NotServedIsLost(w, c);
    NotServedIsLost(w', c);
    if Lost(w.cb, c) {
      AddKeepsLost(w.cb, key, now, c);
    } else if Displaces(w, Register(key, now), c) {
      AddLosesPending(w.cb, key, now);
    } else {
      AddKeepsServed(w.cb, key, now, w.waiters[c].key, c);
    }
  }

  /** A channel that is answered, or pending for another key, stays so. */
  lemma AddKeepsServed(s: Callbacks, key: Key, now: int, k: Key, c: nat)
    requires Inv(s) && c < |s.inbox|
    requires s.inbox[c] != [] || (k != key && k in s.pending && s.pending[k] == c)
    ensures !Lost(Added(s, key, now), c)
  {
    var s' := Added(s, key, now);
    assert s'.inbox[c] == s.inbox[c];
    assert k != key && k in s.pending ==> k in s'.pending && s'.pending[k] == s.pending[k];
  }

  lemma CancelServes(w: World, d: nat, c: nat)
    requires WorldInv(w) && Waiting(w, c) && Waiting(w, d) && c != d
    ensures Served(Do(w, Cancel(d)), c) <==> Served(w, c) && !Displaces(w, Cancel(d), c)
  {
    assert Do(w, Cancel(d)).waiters[c] == w.waiters[c];
  }

  lemma OtherServes(w: World, op: Op, c: nat)
    requires WorldInv(w) && Waiting(w, c) && Enabled(w, Other(op))
    ensures Served(Do(w, Other(op)), c) <==> Served(w, c)
  {
    var w' := Do(w, Other(op));
    StepKeeps(w, Other(op), w');
    NotServedIsLost(w, c);
    NotServedIsLost(w', c);
    if Lost(w.cb, c) {
      LostStays(w.cb, op, c);
    } else {
      OtherOnlyAnswers(w.cb, op);
    }
  }

  ghost predicate DisplacedBy(trace: seq<World>, ms: seq<Move>, c: nat, i: nat)
    requires i <= |ms| < |trace|
  {
    exists j | 0 <= j < i :: Displaces(trace[j], ms[j], c)
  }

  /** A waiter that has just come is served, and nothing has displaced it. */
  lemma NewIsServed(w: World, m: Move, w': World, c: nat)
    requires WorldInv(w) && Steps(w, m, w') && Waiting(w', c) && !Waiting(w, c)
    ensures c == |w.waiters| && Served(w', c)
  {}

  lemma {:induction false} OnlyAdded(trace: seq<World>, ms: seq<Move>, i: nat, j: nat)
    requires Behaviour(trace, ms) && i <= j <= |ms|
    ensures |trace[i].waiters| <= |trace[j].waiters|
    decreases j
  {
    if i < j {
      OnlyAdded(trace, ms, i, j - 1);
      assert StepsAt(trace, ms, j - 1);
    }
  }

  lemma NotDisplacedBefore(trace: seq<World>, ms: seq<Move>, i: nat, c: nat)
    requires Behaviour(trace, ms) && i < |ms| && |trace[i].waiters| <= c
    ensures !DisplacedBy(trace, ms, c, i + 1)
  {
    forall j | 0 <= j <= i ensures !Displaces(trace[j], ms[j], c) {
      OnlyAdded(trace, ms, j, i);
    }
  }

  lemma DisplacedOneMore(trace: seq<World>, ms: seq<Move>, i: nat, c: nat)
    requires i < |ms| < |trace|
    ensures DisplacedBy(trace, ms, c, i + 1) <==> DisplacedBy(trace, ms, c, i) || Displaces(trace[i], ms[i], c)
  {}

  /**
   In every run a waiter that has not left is neither pending nor answered exactly when, while it was
   pending, its key was registered again or another waiter for its key left.
   */
  lemma {:induction false} ForgottenExactly(trace: seq<World>, ms: seq<Move>, i: nat, c: nat)
    requires Behaviour(trace, ms) && i <= |ms| && Waiting(trace[i], c)
    ensures !Served(trace[i], c) <==> DisplacedBy(trace, ms, c, i)
  {
    if i > 0 {
      BehaviourKeepsInv(trace, ms, i - 1);
      assert StepsAt(trace, ms, i - 1);
      if Waiting(trace[i - 1], c) {
        ForgottenExactly(trace, ms, i - 1, c);
        ServedNext(trace[i - 1], ms[i - 1], trace[i], c);
        DisplacedOneMore(trace, ms, i - 1, c);
      } else {
        NewIsServed(trace[i - 1], ms[i - 1], trace[i], c);
        NotDisplacedBefore(trace, ms, i - 1, c);
      }
    }
  }

  // ---------------------------------------------------------------- waits that do not overlap

  /** No two waiters that have not left wait for the same key. */
  ghost predicate Apart(w: World) {
    forall c, d | 0 <= c < d < |w.waiters| && !w.waiters[c].done && !w.waiters[d].done ::
      w.waiters[c].key != w.waiters[d].key
  }

  lemma ApartIsNotDisplaced(w: World, m: Move, w': World, c: nat)
    requires Steps(w, m, w') && Apart(w) && Apart(w')
    ensures !Displaces(w, m, c)
  {
    if m.Register? && c < |w.waiters| {
      assert w'.waiters[c] == w.waiters[c] && w'.waiters[|w.waiters|] == Waiter(m.key, false);
    }
  }

  /** While waits for one key do not overlap, every waiter that has not left is pending or answered. */
  lemma NoWaiterIsForgotten(trace: seq<World>, ms: seq<Move>, i: nat, c: nat)
    requires Behaviour(trace, ms) && (forall j | 0 <= j < |trace| :: Apart(trace[j]))
    requires i <= |ms| && Waiting(trace[i], c)
    ensures Served(trace[i], c)
  {
    ForgottenExactly(trace, ms, i, c);
    forall j | 0 <= j < i ensures !Displaces(trace[j], ms[j], c) {
      assert StepsAt(trace, ms, j);
      assert Apart(trace[j]) && Apart(trace[j + 1]);
      ApartIsNotDisplaced(trace[j], ms[j], trace[j + 1], c);
    }
  }
}
