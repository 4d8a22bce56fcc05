/**
 What the durable task listener's state says of a run's history: what each waiter was told and why, which
 completions are kept for a waiter to come, and what is reported to the engine.
 */
module CallbackAnswers {
  import opened CallbackState
  import opened Options

  // ---------------------------------------------------------------- one step

  ghost predicate Terminal(w: World) { w.cb.terminalErr.Some? }

  /** Waiter `c` waits for the key, and the key leads to its channel. */
  ghost predicate PendingFor(w: World, c: nat, key: Key) { Pending(w, c) && w.waiters[c].key == key }

  /** The step tells waiter `c` the result `r`. */
  ghost predicate Tells(w: World, m: Move, c: nat, r: Result) {
    match m
    case Register(key, now) =>
      && c == |w.waiters|
      && (if Terminal(w) then r == Failed(w.cb.terminalErr.value)
          else key in w.cb.buffered && now < w.cb.buffered[key].expiresAt && r == Completed(w.cb.buffered[key].resp))
    case Other(Complete(key, resp, _, _)) => PendingFor(w, c, key) && r == Completed(resp)
    case Other(Fail(key, err)) => PendingFor(w, c, key) && r == Failed(err)
    case Other(CleanUp(task, invocation)) =>
      && Pending(w, c) && w.waiters[c].key.task == task && w.waiters[c].key.invocation <= invocation
      && r == Failed(CleanedUp(task, invocation))
    case Other(Terminate(err)) => Pending(w, c) && r == Failed(err)
    case _ => false
  }

  /** A channel gets its one message in the step that tells its waiter, and no step touches any other channel. */
  ghost predicate ToldBy(w: World, m: Move, w': World, c: nat)
    requires c < |w'.cb.inbox|
  {
    && (c < |w.cb.inbox| && w.cb.inbox[c] != [] ==> w'.cb.inbox[c] == w.cb.inbox[c])
    && (c < |w.cb.inbox| ==> w.cb.inbox[c] <= w'.cb.inbox[c])
    && (c >= |w.cb.inbox| || w.cb.inbox[c] == [] ==> forall r :: w'.cb.inbox[c] == [r] <==> Tells(w, m, c, r))
  }

  lemma RegisterTells(w: World, key: Key, now: int, c: nat)
    requires WorldInv(w) && c < |Do(w, Register(key, now)).cb.inbox|
    ensures ToldBy(w, Register(key, now), Do(w, Register(key, now)), c)
  {}

  lemma DeliveryTells(w: World, op: Op, c: nat)
    requires WorldInv(w) && (op.Complete? || op.Fail?) && c < |Do(w, Other(op)).cb.inbox|
    ensures ToldBy(w, Other(op), Do(w, Other(op)), c)
  {
    var r := if op.Complete? then Completed(op.resp) else Failed(op.err);
    if op.key in w.cb.pending {
      assert w.waiters[w.cb.pending[op.key]] == Waiter(op.key, false);
      assert [] + [r] == [r];
    }
  }

  lemma CleanUpTells(w: World, task: string, invocation: int, c: nat)
    requires WorldInv(w) && c < |Do(w, Other(CleanUp(task, invocation))).cb.inbox|
    ensures ToldBy(w, Other(CleanUp(task, invocation)), Do(w, Other(CleanUp(task, invocation))), c)
  {
    var gone := set k | k in w.cb.pending && Covers(task, invocation, k);
    var chans := set k | k in gone :: w.cb.pending[k];
    if c in chans {
      var k :| k in gone && w.cb.pending[k] == c;
      assert w.waiters[c] == Waiter(k, false);
      assert [] + [Failed(CleanedUp(task, invocation))] == [Failed(CleanedUp(task, invocation))];
    }
    if Pending(w, c) && Covers(task, invocation, w.waiters[c].key) {
      assert w.waiters[c].key in gone;
    }
  }

  lemma TerminateTells(w: World, err: Failure, c: nat)
    requires WorldInv(w) && c < |Do(w, Other(Terminate(err))).cb.inbox|
    ensures ToldBy(w, Other(Terminate(err)), Do(w, Other(Terminate(err))), c)
  {
    if c in w.cb.pending.Values {
      var k :| k in w.cb.pending && w.cb.pending[k] == c;
      assert w.waiters[c] == Waiter(k, false);
      assert [] + [Failed(err)] == [Failed(err)];
    }
  }

  lemma StepTells(w: World, m: Move, w': World, c: nat)
    requires WorldInv(w) && Steps(w, m, w') && c < |w'.cb.inbox|
    ensures ToldBy(w, m, w', c)
  {
    match m
    case Register(key, now) => RegisterTells(w, key, now, c);
    case Other(op) =>
      match op {
        case Complete(_, _, _, _) => DeliveryTells(w, op, c);
        case Fail(_, _) => DeliveryTells(w, op, c);
        case CleanUp(task, invocation) => CleanUpTells(w, task, invocation, c);
        case Terminate(err) => TerminateTells(w, err, c);
        case _ =>
      }
    case _ =>
  }

  // ---------------------------------------------------------------- what a waiter was told

  /** Some step before state `i` told waiter `c` the result `r`. */
  ghost predicate ToldBefore(trace: seq<World>, ms: seq<Move>, i: nat, c: nat, r: Result)
    requires i <= |ms| < |trace|
  {
    exists j | 0 <= j < i :: Tells(trace[j], ms[j], c, r)
  }

  ghost predicate Holds(w: World, c: nat, r: Result) { c < |w.cb.inbox| && w.cb.inbox[c] == [r] }

  /** Nobody is told twice, and nobody before it waits. */
  lemma ToldOnce(w: World, m: Move, w': World, c: nat, r: Result)
    requires WorldInv(w) && Steps(w, m, w')
    ensures Holds(w', c, r) <==> Holds(w, c, r) || Tells(w, m, c, r)
  {
    StepKeeps(w, m, w');
    if c < |w'.cb.inbox| {
      StepTells(w, m, w', c);
    }
  }

  /**
   In every run a channel holds a result exactly when a step before has told its waiter: a completion of its
   key that arrived while it was pending or is kept for it, an error for its key, a clean-up that covers it,
   or the terminal state.
   */
  lemma {:induction false} ToldExactly(trace: seq<World>, ms: seq<Move>, i: nat, c: nat, r: Result)
    requires Behaviour(trace, ms) && i <= |ms|
    ensures Holds(trace[i], c, r) <==> ToldBefore(trace, ms, i, c, r)
  {
    if i > 0 {
      BehaviourKeepsInv(trace, ms, i - 1);
      assert StepsAt(trace, ms, i - 1);
      ToldExactly(trace, ms, i - 1, c, r);
      ToldOnce(trace[i - 1], ms[i - 1], trace[i], c, r);
    }
  }

  /** Completing a pending key puts the completion into its channel, and leaves every other channel alone. */
  lemma CompletingDelivers(s: Callbacks, key: Key, resp: nat, order: Option<int>, now: int)
    requires Inv(s) && key in s.pending
    ensures var s' := CompletedEntry(s, key, resp, order, now);
      && s'.inbox == s.inbox[s.pending[key] := [Completed(resp)]]
      && s'.pending == s.pending - {key} && s'.terminalErr == s.terminalErr
  {
    assert [] + [Completed(resp)] == [Completed(resp)];
  }

  // ---------------------------------------------------------------- the terminal state

  ghost predicate Reopens(m: Move) { m.Other? && (m.op.Restart? || m.op.Terminate?) }

  ghost predicate TerminatedAt(ms: seq<Move>, i: nat, err: Failure, j: nat)
    requires j < i <= |ms|
  {
    ms[j] == Other(Terminate(err)) && forall q | j < q < i :: !Reopens(ms[q])
  }

  /** The listener answers everyone with an error exactly from a termination with it until it is started again. */
  lemma {:induction false} TerminalExactly(trace: seq<World>, ms: seq<Move>, i: nat, err: Failure)
    requires Behaviour(trace, ms) && i <= |ms|
    ensures trace[i].cb.terminalErr == Some(err) <==> exists j | 0 <= j < i :: TerminatedAt(ms, i, err, j)
  {
    if i > 0 {
      var n := i - 1;
      TerminalExactly(trace, ms, n, err);
      assert StepsAt(trace, ms, n);
      if ms[n] == Other(Terminate(err)) {
        assert TerminatedAt(ms, i, err, n);
      } else if !Reopens(ms[n]) {
        forall j | 0 <= j < n ensures TerminatedAt(ms, i, err, j) <==> TerminatedAt(ms, n, err, j) {}
      }
    }
  }

  // ---------------------------------------------------------------- completions kept for a waiter to come

  /** The move leaves a completion of `key` that expires at `expiry` where it is. */
  ghost predicate Spares(m: Move, key: Key, expiry: int) {
    match m
    case Register(k, now) => k != key && now < expiry
    case Other(Complete(k, _, _, now)) => k != key && now < expiry
    case Other(CleanUp(task, invocation)) => !(key.task == task && key.invocation <= invocation)
    case Other(Terminate(_)) => false
    case _ => true
  }

  /** At `w` the move brings a completion that nobody waits for. */
  ghost predicate ArrivesEarly(w: World, m: Move, key: Key, resp: nat, expiry: int) {
    && m.Other? && m.op.Complete? && m.op.key == key && m.op.resp == resp
    && m.op.now + COMPLETION_BUFFER_TTL == expiry
    && key !in w.cb.pending && !Terminal(w)
  }

  ghost predicate KeptSince(trace: seq<World>, ms: seq<Move>, i: nat, key: Key, b: Buffered, j: nat)
    requires j < i <= |ms| < |trace|
  {
    ArrivesEarly(trace[j], ms[j], key, b.resp, b.expiresAt) && forall q | j < q < i :: Spares(ms[q], key, b.expiresAt)
  }

  ghost predicate KeptIn(s: Callbacks, key: Key, b: Buffered) { key in s.buffered && s.buffered[key] == b }

  lemma KeepsAfterAdd(s: Callbacks, k: Key, now: int, key: Key, b: Buffered)
    requires Inv(s)
    ensures KeptIn(Added(s, k, now), key, b) <==> KeptIn(s, key, b) && k != key && now < b.expiresAt
  {}

  lemma KeepsAfterComplete(s: Callbacks, k: Key, resp: nat, order: Option<int>, now: int, key: Key, b: Buffered)
    requires Inv(s)
    ensures KeptIn(CompletedEntry(s, k, resp, order, now), key, b) <==>
      || (k == key && b == Buffered(resp, now + COMPLETION_BUFFER_TTL) && key !in s.pending && s.terminalErr.None?)
      || (KeptIn(s, key, b) && k != key && now < b.expiresAt)
  {}

  lemma KeepsNext(w: World, m: Move, w': World, key: Key, b: Buffered)
    requires WorldInv(w) && Steps(w, m, w')
    ensures KeptIn(w'.cb, key, b) <==>
      ArrivesEarly(w, m, key, b.resp, b.expiresAt) || (KeptIn(w.cb, key, b) && Spares(m, key, b.expiresAt))
  {
    match m
    case Register(k, now) => KeepsAfterAdd(w.cb, k, now, key, b);
    case Other(op) =>
      match op {
        case Complete(k, resp, order, now) => KeepsAfterComplete(w.cb, k, resp, order, now, key, b);
        case _ =>
      }
    case _ =>
  }

  lemma KeptOneMore(trace: seq<World>, ms: seq<Move>, n: nat, key: Key, b: Buffered, i: nat, j: nat)
    requires j < n < |ms| < |trace| && i == n + 1
    ensures KeptSince(trace, ms, i, key, b, j) <==>
      KeptSince(trace, ms, n, key, b, j) && Spares(ms[n], key, b.expiresAt)
  {}

  /**
   A completion is kept exactly from when it arrives early until it is replaced, handed out, cleaned up,
   wiped by the terminal state, or some operation comes ten seconds later.
   */
  lemma {:induction false} KeptExactly(trace: seq<World>, ms: seq<Move>, i: nat, key: Key, b: Buffered)
    requires Behaviour(trace, ms) && i <= |ms|
    ensures KeptIn(trace[i].cb, key, b) <==> exists j | 0 <= j < i :: KeptSince(trace, ms, i, key, b, j)
  {
    if i > 0 {
      var n := i - 1;
      KeptExactly(trace, ms, n, key, b);
      BehaviourKeepsInv(trace, ms, n);
      assert StepsAt(trace, ms, n);
      KeepsNext(trace[n], ms[n], trace[i], key, b);
      forall j | 0 <= j < n
        ensures KeptSince(trace, ms, i, key, b, j) <==>
          KeptSince(trace, ms, n, key, b, j) && Spares(ms[n], key, b.expiresAt)
      {
        KeptOneMore(trace, ms, n, key, b, i, j);
      }
      assert KeptSince(trace, ms, i, key, b, n) <==> ArrivesEarly(trace[n], ms[n], key, b.resp, b.expiresAt);
    }
  }

  // ---------------------------------------------------------------- what is reported to the engine

  /** Step `j` registered `key` at `now` on channel `c`. */
  ghost predicate RegisteredBy(trace: seq<World>, ms: seq<Move>, key: Key, now: int, c: nat, j: nat)
    requires j < |ms| < |trace|
  {
    ms[j] == Register(key, now) && c == |trace[j].waiters|
  }

  /** The time noted for a pending key is that of the registration of its channel. */
  lemma {:induction false} RegisteredAtExactly(trace: seq<World>, ms: seq<Move>, i: nat, key: Key) returns (j: nat)
    requires Behaviour(trace, ms) && i <= |ms| && key in trace[i].cb.pending
    ensures key in trace[i].cb.registeredAt && j < i
    ensures RegisteredBy(trace, ms, key, trace[i].cb.registeredAt[key], trace[i].cb.pending[key], j)
  {
    var n := i - 1;
    BehaviourKeepsInv(trace, ms, n);
    BehaviourKeepsInv(trace, ms, i);
    assert StepsAt(trace, ms, n);
    if ms[n].Register? && ms[n].key == key {
      j := n;
    } else {
      PendingStays(trace[n], ms[n], trace[i], key);
      j := RegisteredAtExactly(trace, ms, n, key);
    }
  }

  lemma PendingStays(w: World, m: Move, w': World, key: Key)
    requires WorldInv(w) && Steps(w, m, w') && key in w'.cb.pending && !(m.Register? && m.key == key)
    ensures key in w.cb.pending && w'.cb.pending[key] == w.cb.pending[key]
    ensures key in w.cb.registeredAt && key in w'.cb.registeredAt
    ensures w'.cb.registeredAt[key] == w.cb.registeredAt[key]
    ensures key in w'.cb.newly <==> key in w.cb.newly && !Takes(m)
  {
    match m
    case Register(k, now) => PendingAfterAdd(w.cb, k, now, key);
    case Other(op) => PendingAfterOp(w.cb, op, key);
    case _ =>
  }

  ghost predicate SameWait(s: Callbacks, s': Callbacks, key: Key) {
    && key in s.pending && key in s'.pending && s'.pending[key] == s.pending[key]
    && key in s.registeredAt && key in s'.registeredAt && s'.registeredAt[key] == s.registeredAt[key]
  }

  lemma ForgetSparesOthers(s: Callbacks, s': Callbacks, gone: set<Key>, key: Key)
    requires Inv(s) && key in s.pending && key !in gone
    requires s'.pending == s.pending - gone && s'.registeredAt == s.registeredAt - gone && s'.newly == s.newly - gone
    ensures SameWait(s, s', key) && (key in s'.newly <==> key in s.newly)
  {
    assert key in s.pending.Keys;
  }

  lemma PendingAfterComplete(s: Callbacks, k: Key, resp: nat, order: Option<int>, now: int, key: Key)
    requires Inv(s) && key in CompletedEntry(s, k, resp, order, now).pending
    ensures var s' := CompletedEntry(s, k, resp, order, now);
      SameWait(s, s', key) && (key in s'.newly <==> key in s.newly)
  {
    var s' := CompletedEntry(s, k, resp, order, now);
    ForgetSparesOthers(s, s', if s.terminalErr.None? && k in s.pending then {k} else {}, key);
  }

  lemma PendingAfterCleanUp(s: Callbacks, task: string, invocation: int, key: Key)
    requires Inv(s) && key in CleanedUpState(s, task, invocation).pending
    ensures var s' := CleanedUpState(s, task, invocation);
      SameWait(s, s', key) && (key in s'.newly <==> key in s.newly)
  {
    var gone := set k | k in s.pending && Covers(task, invocation, k);
    ForgetSparesOthers(s, CleanedUpState(s, task, invocation), gone, key);
  }

  lemma PendingAfterOp(s: Callbacks, op: Op, key: Key)
    requires Inv(s) && !op.Add? && !op.Remove? && key in Apply(s, op).pending
    ensures SameWait(s, Apply(s, op), key)
    ensures key in Apply(s, op).newly <==> key in s.newly && !op.TakeNewly? && !op.TakeAll?
  {
    assert key in s.pending.Keys <==> key in s.registeredAt.Keys;
    match op
    case Complete(k, resp, order, now) => PendingAfterComplete(s, k, resp, order, now, key);
    case CleanUp(task, invocation) => PendingAfterCleanUp(s, task, invocation, key);
    case Fail(k, err) =>
      ForgetSparesOthers(s, FailedEntry(s, k, err), if s.terminalErr.None? && k in s.pending then {k} else {}, key);
    case _ =>
  }

  ghost predicate Takes(m: Move) { m.Other? && (m.op.TakeNewly? || m.op.TakeAll?) }

  ghost predicate NotTakenSince(ms: seq<Move>, i: nat, key: Key, j: nat)
    requires j < i <= |ms|
  {
    ms[j].Register? && ms[j].key == key && forall q | j < q < i :: !Takes(ms[q])
  }

  /** A pending key is still to be reported exactly if it was registered after the last report. */
  lemma {:induction false} NewlyExactly(trace: seq<World>, ms: seq<Move>, i: nat, key: Key)
    requires Behaviour(trace, ms) && i <= |ms| && key in trace[i].cb.pending
    ensures key in trace[i].cb.newly <==> exists j | 0 <= j < i :: NotTakenSince(ms, i, key, j)
  {
    if i > 0 {
      var n := i - 1;
      BehaviourKeepsInv(trace, ms, n);
      assert StepsAt(trace, ms, n);
      if ms[n].Register? && ms[n].key == key {
        assert NotTakenSince(ms, i, key, n);
      } else {
        PendingStays(trace[n], ms[n], trace[i], key);
        NewlyExactly(trace, ms, n, key);
        forall j | 0 <= j < n
          ensures NotTakenSince(ms, i, key, j) <==> NotTakenSince(ms, n, key, j) && !Takes(ms[n])
        {}
      }
    }
  }

  // ---------------------------------------------------------------- the highest order received

  ghost predicate Wipes(m: Move, inv: Invocation) {
    m.Other? && m.op.CleanUp? && m.op.task == inv.task && inv.count <= m.op.invocation
  }

  /** At `w` the move brings order `o` for the invocation. */
  ghost predicate BringsOrder(w: World, m: Move, inv: Invocation, o: int) {
    && m.Other? && m.op.Complete? && m.op.order == Some(o)
    && Invocation(m.op.key.task, m.op.key.invocation) == inv && !Terminal(w)
  }

  ghost predicate OrderedSince(trace: seq<World>, ms: seq<Move>, i: nat, inv: Invocation, o: int, j: nat)
    requires j < i <= |ms| < |trace|
  {
    BringsOrder(trace[j], ms[j], inv, o) && forall q | j < q < i :: !Wipes(ms[q], inv)
  }

  ghost predicate HasOrder(trace: seq<World>, ms: seq<Move>, i: nat, inv: Invocation, o: int)
    requires i <= |ms| < |trace|
  {
    exists j | 0 <= j < i :: OrderedSince(trace, ms, i, inv, o, j)
  }

  /** The order noted for an invocation is the highest received since its last clean-up, and never below 0. */
  ghost predicate NotesHighest(trace: seq<World>, ms: seq<Move>, i: nat, inv: Invocation)
    requires i <= |ms| < |trace|
  {
    var orders := trace[i].cb.orders;
    && (inv in orders <==> exists o :: HasOrder(trace, ms, i, inv, o))
    && (inv in orders ==>
          && 0 <= orders[inv]
          && (forall o | HasOrder(trace, ms, i, inv, o) :: o <= orders[inv])
          && (orders[inv] == 0 || HasOrder(trace, ms, i, inv, orders[inv])))
  }

  lemma {:induction false} OrderNext(trace: seq<World>, ms: seq<Move>, n: nat, i: nat, inv: Invocation, o: int)
    requires n < |ms| < |trace| && i == n + 1
    ensures HasOrder(trace, ms, i, inv, o) <==>
      BringsOrder(trace[n], ms[n], inv, o) || (HasOrder(trace, ms, n, inv, o) && !Wipes(ms[n], inv))
  {
    forall j | 0 <= j < n
      ensures OrderedSince(trace, ms, i, inv, o, j) <==>
        OrderedSince(trace, ms, n, inv, o, j) && !Wipes(ms[n], inv)
    {}
    assert OrderedSince(trace, ms, i, inv, o, n) <==> BringsOrder(trace[n], ms[n], inv, o);
  }

  lemma {:induction false} HighestExactly(trace: seq<World>, ms: seq<Move>, i: nat, inv: Invocation)
    requires Behaviour(trace, ms) && i <= |ms|
    ensures NotesHighest(trace, ms, i, inv)
  {
    if i > 0 {
      var n := i - 1;
      HighestExactly(trace, ms, n, inv);
      assert StepsAt(trace, ms, n);
      forall o
        ensures HasOrder(trace, ms, i, inv, o) <==>
          BringsOrder(trace[n], ms[n], inv, o) || (HasOrder(trace, ms, n, inv, o) && !Wipes(ms[n], inv))
      {
        OrderNext(trace, ms, n, i, inv, o);
      }
      HighestNext(trace, ms, n, i, inv);
    }
  }

  /** What a completion does to the order noted for an invocation. */
  lemma OrdersAfterComplete(s: Callbacks, key: Key, resp: nat, order: Option<int>, now: int, inv: Invocation)
    requires inv in s.orders ==> 0 <= s.orders[inv]
    ensures var s' := CompletedEntry(s, key, resp, order, now);
      var brings := order.Some? && s.terminalErr.None? && inv == Invocation(key.task, key.invocation);
      && (inv in s'.orders <==> inv in s.orders || brings)
      && (brings ==> order.value <= s'.orders[inv] && 0 <= s'.orders[inv])
      && (inv in s.orders ==> s.orders[inv] <= s'.orders[inv])
      && (inv in s'.orders ==>
            || (inv in s.orders && s'.orders[inv] == s.orders[inv])
            || (brings && (s'.orders[inv] == order.value || s'.orders[inv] == 0)))
  {}

  /** What a step does to the order noted for an invocation. */
  lemma OrdersAfter(w: World, m: Move, w': World, inv: Invocation)
    requires Steps(w, m, w') && (inv in w.cb.orders ==> 0 <= w.cb.orders[inv])
    ensures Wipes(m, inv) ==> inv !in w'.cb.orders
    ensures !Wipes(m, inv) ==> inv in w.cb.orders ==> inv in w'.cb.orders && w.cb.orders[inv] <= w'.cb.orders[inv]
    ensures inv in w'.cb.orders && !(inv in w.cb.orders && w'.cb.orders[inv] == w.cb.orders[inv]) ==>
      0 <= w'.cb.orders[inv] && exists o | BringsOrder(w, m, inv, o) :: w'.cb.orders[inv] == 0 || w'.cb.orders[inv] == o
    ensures forall o | BringsOrder(w, m, inv, o) :: inv in w'.cb.orders && o <= w'.cb.orders[inv]
  {
    if m.Other? && m.op.Complete? {
      OrdersAfterComplete(w.cb, m.op.key, m.op.resp, m.op.order, m.op.now, inv);
      if m.op.order.Some? {
        assert inv == Invocation(m.op.key.task, m.op.key.invocation) && !Terminal(w) ==>
          BringsOrder(w, m, inv, m.op.order.value);
      }
    }
  }

  lemma {:induction false} HighestNext(trace: seq<World>, ms: seq<Move>, n: nat, i: nat, inv: Invocation)
    requires n < |ms| < |trace| && i == n + 1 && NotesHighest(trace, ms, n, inv) && Steps(trace[n], ms[n], trace[i])
    requires forall o :: HasOrder(trace, ms, i, inv, o) <==>
      BringsOrder(trace[n], ms[n], inv, o) || (HasOrder(trace, ms, n, inv, o) && !Wipes(ms[n], inv))
    ensures NotesHighest(trace, ms, i, inv)
  {
    OrdersAfter(trace[n], ms[n], trace[i], inv);
  }
}
