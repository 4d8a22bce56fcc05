/** The durable task listener's critical sections, each proved against its operation on `Callbacks`. */
module TaskListener {
  import opened CallbackState
  import opened Options

  class DurableTaskListener {
    var pendingCallbacks: map<Key, nat>
    var newlyPendingCallbackKeys: set<Key>
    var pendingCallbackRegisteredAt: map<Key, int>
    var bufferedCompletions: map<Key, Buffered>
    var highestReceivedSatisfiedOrders: map<Invocation, int>
    var callbacksTerminal: bool
    var callbackTerminalErr: Failure
    var inbox: seq<seq<Result>>

    ghost function State(): Callbacks
      reads this
    {
      Callbacks(pendingCallbacks, newlyPendingCallbackKeys, pendingCallbackRegisteredAt, bufferedCompletions,
                highestReceivedSatisfiedOrders, if callbacksTerminal then Some(callbackTerminalErr) else None, inbox)
    }

    constructor ()
      ensures State() == Init
    {
      pendingCallbacks, newlyPendingCallbackKeys, pendingCallbackRegisteredAt := map[], {}, map[];
      bufferedCompletions, highestReceivedSatisfiedOrders := map[], map[];
      callbacksTerminal, callbackTerminalErr, inbox := false, Stopped, [];
    }

    method PruneExpiredCompletions(now: int)
      modifies this`bufferedCompletions
      ensures State() == Prune(old(State()), now)
    {
      var todo := bufferedCompletions.Keys;
      while todo != {}
        invariant todo <= bufferedCompletions.Keys <= old(bufferedCompletions).Keys
        invariant forall k | k in bufferedCompletions :: bufferedCompletions[k] == old(bufferedCompletions)[k]
        invariant forall k | k in old(bufferedCompletions) && k !in todo ::
                    k in bufferedCompletions <==> old(bufferedCompletions)[k].expiresAt > now
        invariant forall k | k in todo :: k in bufferedCompletions
        decreases |todo|
      {
        var k :| k in todo;
        todo := todo - {k};
        if !(bufferedCompletions[k].expiresAt > now) {
          bufferedCompletions := bufferedCompletions - {k};
        }
      }
      assert bufferedCompletions == Prune(old(State()), now).buffered;
    }

    method ForgetPendingCallback(key: Key)
      modifies this`pendingCallbacks, this`newlyPendingCallbackKeys, this`pendingCallbackRegisteredAt
      ensures State() == Forget(old(State()), {key})
    {
      pendingCallbacks := pendingCallbacks - {key};
      newlyPendingCallbackKeys := newlyPendingCallbackKeys - {key};
      pendingCallbackRegisteredAt := pendingCallbackRegisteredAt - {key};
    }

    /** Sends without blocking: on a channel that holds a message the send is lost. */
    method TrySend(c: nat, r: Result)
      requires c < |inbox|
      modifies this`inbox
      ensures inbox == Send(old(inbox), c, r)
    {
      inbox := inbox[c := inbox[c] + [r]];
    }

    method AddPendingCallback(key: Key, now: int) returns (ch: nat)
      modifies this
      ensures State() == Added(old(State()), key, now) && ch == |old(inbox)|
    {
      ch := |inbox|;
      inbox := inbox + [[]];
      if callbacksTerminal {
        TrySend(ch, Failed(callbackTerminalErr));
        assert [] + [Failed(callbackTerminalErr)] == [Failed(callbackTerminalErr)];
        assert inbox == old(inbox) + [[Failed(callbackTerminalErr)]];
        return;
      }
      PruneExpiredCompletions(now);
      if key in bufferedCompletions {
        var resp := bufferedCompletions[key].resp;
        bufferedCompletions := bufferedCompletions - {key};
        TrySend(ch, Completed(resp));
        assert [] + [Completed(resp)] == [Completed(resp)];
        assert inbox == old(inbox) + [[Completed(resp)]];
      } else {
        pendingCallbacks := pendingCallbacks[key := ch];
        newlyPendingCallbackKeys := newlyPendingCallbackKeys + {key};
        pendingCallbackRegisteredAt := pendingCallbackRegisteredAt[key := now];
      }
    }

    method DispatchEntryCompleted(key: Key, resp: nat, order: Option<int>, now: int)
      requires Inv(State())
      modifies this
      ensures State() == CompletedEntry(old(State()), key, resp, order, now)
    {
      if callbacksTerminal {
        return;
      }
      PruneExpiredCompletions(now);
      if order.Some? {
        var inv := Invocation(key.task, key.invocation);
        var had := if inv in highestReceivedSatisfiedOrders then highestReceivedSatisfiedOrders[inv] else 0;
        var highest := if had >= order.value then had else order.value;
        highestReceivedSatisfiedOrders := highestReceivedSatisfiedOrders[inv := highest];
      }
      if key in pendingCallbacks {
        var ch := pendingCallbacks[key];
        ForgetPendingCallback(key);
        TrySend(ch, Completed(resp));
      } else {
        bufferedCompletions := bufferedCompletions[key := Buffered(resp, now + COMPLETION_BUFFER_TTL)];
      }
    }

    method DispatchCallbackError(key: Key, err: Failure)
      requires Inv(State())
      modifies this
      ensures State() == FailedEntry(old(State()), key, err)
    {
      if !callbacksTerminal {
        if key in pendingCallbacks {
          var ch := pendingCallbacks[key];
          ForgetPendingCallback(key);
          TrySend(ch, Failed(err));
        }
      }
    }

    method RemovePendingCallback(key: Key)
      modifies this
      ensures State() == Forget(old(State()), {key})
    {
      ForgetPendingCallback(key);
    }

    method TerminateCallbackState(err: Failure)
      requires Inv(State())
      modifies this
      ensures State() == Terminated(old(State()), err)
    {
      callbacksTerminal := true;
      callbackTerminalErr := err;
      var callbacks := pendingCallbacks;
      pendingCallbacks := map[];
      newlyPendingCallbackKeys := {};
      pendingCallbackRegisteredAt := map[];
      bufferedCompletions := map[];
      SendToEach(callbacks, Failed(err));
    }

    /** Delivers to each channel of a map that gives every key its own channel. */
    method SendToEach(callbacks: map<Key, nat>, r: Result)
      requires forall k | k in callbacks :: callbacks[k] < |inbox|
      requires forall k, k' | k in callbacks && k' in callbacks :: callbacks[k] == callbacks[k'] ==> k == k'
      modifies this`inbox
      ensures inbox == SendAll(old(inbox), callbacks.Values, r)
    {
      var todo := callbacks.Keys;
      ghost var sent: set<nat> := {};
      while todo != {}
        invariant todo <= callbacks.Keys
        invariant forall c :: c in sent <==> exists k :: k in callbacks && k !in todo && callbacks[k] == c
        invariant inbox == SendAll(old(inbox), sent, r)
        decreases |todo|
      {
        var k :| k in todo;
        TrySend(callbacks[k], r);
        todo := todo - {k};
        ghost var was := sent;
        sent := sent + {callbacks[k]};
        forall c ensures c in sent <==> exists k :: k in callbacks && k !in todo && callbacks[k] == c {
          if c in was {
            var j :| j in callbacks && j !in todo + {k} && callbacks[j] == c;
            assert j !in todo;
          }
        }
      }
      assert sent == callbacks.Values;
    }

    method CleanupTaskState(task: string, invocation: int)
      requires Inv(State())
      modifies this
      ensures State() == CleanedUpState(old(State()), task, invocation)
    {
      var covered := CoveredCallbacks(task, invocation);
      ForgetEach(covered.Keys);
      SendToEach(covered, Failed(CleanedUp(task, invocation)));
      DropCoveredCompletions(task, invocation);
      DropCoveredOrders(task, invocation);
    }

    method CoveredCallbacks(task: string, invocation: int) returns (covered: map<Key, nat>)
      ensures covered == map k | k in pendingCallbacks && Covers(task, invocation, k) :: pendingCallbacks[k]
    {
      covered := map[];
      var todo := pendingCallbacks.Keys;
      while todo != {}
        invariant todo <= pendingCallbacks.Keys
        invariant covered == map k | k in pendingCallbacks && k !in todo && Covers(task, invocation, k) ::
          pendingCallbacks[k]
        decreases |todo|
      {
        var k :| k in todo;
        if Covers(task, invocation, k) {
          covered := covered[k := pendingCallbacks[k]];
        }
        todo := todo - {k};
      }
    }

    method ForgetEach(keys: set<Key>)
      modifies this`pendingCallbacks, this`newlyPendingCallbackKeys, this`pendingCallbackRegisteredAt
      ensures State() == Forget(old(State()), keys)
    {
      var todo := keys;
      while todo != {}
        invariant todo <= keys
        invariant State() == Forget(old(State()), keys - todo)
        decreases |todo|
      {
        var k :| k in todo;
        ForgetPendingCallback(k);
        todo := todo - {k};
      }
    }

    method DropCoveredCompletions(task: string, invocation: int)
      modifies this`bufferedCompletions
      ensures bufferedCompletions == map k | k in old(bufferedCompletions) && !Covers(task, invocation, k) ::
        old(bufferedCompletions)[k]
    {
      var todo := bufferedCompletions.Keys;
      while todo != {}
        invariant todo <= bufferedCompletions.Keys
        invariant bufferedCompletions ==
                  map k | k in old(bufferedCompletions) && (k in todo || !Covers(task, invocation, k)) ::
                    old(bufferedCompletions)[k]
        decreases |todo|
      {
        var k :| k in todo;
        todo := todo - {k};
        if Covers(task, invocation, k) {
          bufferedCompletions := bufferedCompletions - {k};
        }
      }
    }

    method DropCoveredOrders(task: string, invocation: int)
      modifies this`highestReceivedSatisfiedOrders
      ensures highestReceivedSatisfiedOrders ==
              map i | i in old(highestReceivedSatisfiedOrders) && !(i.task == task && i.count <= invocation) ::
                old(highestReceivedSatisfiedOrders)[i]
    {
      var todo := highestReceivedSatisfiedOrders.Keys;
      while todo != {}
        invariant todo <= highestReceivedSatisfiedOrders.Keys
        invariant highestReceivedSatisfiedOrders ==
                  map i | i in old(highestReceivedSatisfiedOrders)
                       && (i in todo || !(i.task == task && i.count <= invocation)) ::
                    old(highestReceivedSatisfiedOrders)[i]
        decreases |todo|
      {
        var i :| i in todo;
        todo := todo - {i};
        if i.task == task && i.count <= invocation {
          highestReceivedSatisfiedOrders := highestReceivedSatisfiedOrders - {i};
        }
      }
    }

    /** Start makes the state usable again; what the terminal transition emptied stays empty. */
    method Reopen()
      modifies this`callbacksTerminal
      ensures State() == old(State()).(terminalErr := None)
    {
      callbacksTerminal := false;
    }

    method TakeNewlyPendingCallbackKeys() returns (keys: set<Key>)
      modifies this`newlyPendingCallbackKeys
      ensures State() == Apply(old(State()), TakeNewly) && keys == old(newlyPendingCallbackKeys)
    {
      keys := newlyPendingCallbackKeys;
      newlyPendingCallbackKeys := {};
    }

    method TakeAllPendingCallbackKeys() returns (keys: set<Key>)
      modifies this`newlyPendingCallbackKeys
      ensures State() == Apply(old(State()), TakeAll) && keys == old(pendingCallbacks).Keys
    {
      newlyPendingCallbackKeys := {};
      keys := pendingCallbacks.Keys;
    }

    /** The waits worth reporting again: registered long enough ago and still pending. */
    method LongPendingCallbackKeys(now: int) returns (keys: set<Key>)
      requires Inv(State())
      ensures keys == set k | k in pendingCallbacks && pendingCallbackRegisteredAt[k] <= now - RESEND_MIN_PENDING
    {
      keys := {};
      var todo := pendingCallbackRegisteredAt.Keys;
      while todo != {}
        invariant todo <= pendingCallbackRegisteredAt.Keys
        invariant keys == set k | k in pendingCallbackRegisteredAt && k !in todo
                               && pendingCallbackRegisteredAt[k] <= now - RESEND_MIN_PENDING
        decreases |todo|
      {
        var k :| k in todo;
        if !(pendingCallbackRegisteredAt[k] > now - RESEND_MIN_PENDING) {
          keys := keys + {k};
        }
        todo := todo - {k};
      }
    }
  }

  // ---------------------------------------------------------------- status requests

  datatype Received = Received(invocation: Invocation, order: int)
  datatype StatusRequest = StatusRequest(waiting: seq<Key>, received: seq<Received>)

  function InvocationOf(k: Key): Invocation { Invocation(k.task, k.invocation) }

  function AllWaiting(rs: seq<StatusRequest>): seq<Key> {
    if rs == [] then [] else AllWaiting(rs[..|rs| - 1]) + rs[|rs| - 1].waiting
  }

  /** One line per invocation that some waiting key belongs to and that has received an order. */
  ghost predicate ReportsOrders(r: StatusRequest, orders: map<Invocation, int>) {
    && (forall x | x in r.received ::
          && x.invocation in orders && x.order == orders[x.invocation]
          && exists k :: k in r.waiting && InvocationOf(k) == x.invocation)
    && (forall k | k in r.waiting && InvocationOf(k) in orders ::
          Received(InvocationOf(k), orders[InvocationOf(k)]) in r.received)
    && (forall i, j | 0 <= i < j < |r.received| :: r.received[i].invocation != r.received[j].invocation)
  }

  method StatusRequestFor(keys: seq<Key>, orders: map<Invocation, int>) returns (r: StatusRequest)
    ensures r.waiting == keys && ReportsOrders(r, orders)
  {
    var received: seq<Received> := [];
    var reported: set<Invocation> := {};
    for i := 0 to |keys|
      invariant forall v :: v in reported <==> exists j :: 0 <= j < |received| && received[j].invocation == v
      invariant forall j | 0 <= j < |received| ::
        received[j].invocation in orders && received[j].order == orders[received[j].invocation]
      invariant forall j | 0 <= j < |received| ::
        exists m :: 0 <= m < i && InvocationOf(keys[m]) == received[j].invocation
      invariant forall m | 0 <= m < i && InvocationOf(keys[m]) in orders :: InvocationOf(keys[m]) in reported
      invariant forall a, b | 0 <= a < b < |received| :: received[a].invocation != received[b].invocation
    {
      var v := InvocationOf(keys[i]);
      if v !in orders || v in reported {
        continue;
      }
      ghost var was := received;
      reported := reported + {v};
      received := received + [Received(v, orders[v])];
      assert received[|was|].invocation == v;
      assert forall j | 0 <= j < |was| :: received[j] == was[j];
    }
    r := StatusRequest(keys, received);
    forall k | k in keys && InvocationOf(k) in orders
      ensures Received(InvocationOf(k), orders[InvocationOf(k)]) in received
    {
      var m :| 0 <= m < |keys| && keys[m] == k;
      assert InvocationOf(keys[m]) in reported;
      var j :| 0 <= j < |received| && received[j].invocation == InvocationOf(k);
      assert received[j] in received;
    }
  }

  /** Every key is reported once, in order, in requests that are full but for the last. */
  method WorkerStatusRequests(keys: seq<Key>, orders: map<Invocation, int>, max: nat)
    returns (requests: seq<StatusRequest>)
    requires max > 0
    ensures AllWaiting(requests) == keys
    ensures forall i | 0 <= i < |requests| :: 0 < |requests[i].waiting| <= max && ReportsOrders(requests[i], orders)
    ensures forall i | 0 <= i < |requests| - 1 :: |requests[i].waiting| == max
  {
    requests := [];
    var start := 0;
    while start < |keys|
      invariant 0 <= start <= |keys| && AllWaiting(requests) == keys[..start]
      invariant forall i | 0 <= i < |requests| :: 0 < |requests[i].waiting| <= max && ReportsOrders(requests[i], orders)
      invariant forall i | 0 <= i < |requests| ::
        |requests[i].waiting| == max || (start == |keys| && i == |requests| - 1)
    {
      var end := if start + max <= |keys| then start + max else |keys|;
      var r := StatusRequestFor(keys[start..end], orders);
      assert (requests + [r])[..|requests|] == requests;
      requests := requests + [r];
      assert keys[..end] == keys[..start] + keys[start..end];
      start := end;
    }
    assert keys[..|keys|] == keys;
  }
}
