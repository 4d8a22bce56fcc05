/**
 The buffer map: producers find or create the buffer of their key, hold it while they enqueue, and an
 evictor closes idle buffers, deletes them from the map and stops them.

 A `Move` is one atomic action of one goroutine. Whether a buffer looks empty and idle is decided by
 the clock and by flushes that are not part of this machine, so the evictor may find either answer.
 */
module BufferEviction {
  import opened Sums

  type Key = nat
  type Msg = nat

  /** `stored` and `received` record history: was it ever in the map, what was enqueued into it. */
  datatype Buffer = Buffer(
    key: Key,
    creator: nat,
    stored: bool,
    closed: bool,
    stopped: bool,
    readers: nat,
    received: seq<Msg>)

  datatype Pc =
    | Loading
    | Creating
    | Storing(own: nat)
    | Discarding(own: nat, found: nat)
    | Loaded(b: nat)
    | Holding(b: nat)
    | Sent(b: nat)
    | Finished

  datatype Producer = Producer(key: Key, msg: Msg, pc: Pc)

  datatype Evictor = Ranging | Visiting(b: nat) | Deleting(b: nat) | Stopping(b: nat)

  datatype State = State(table: map<Key, nat>, buffers: seq<Buffer>, producers: seq<Producer>, evictor: Evictor)

  const Init := State(map[], [], [], Ranging)

  datatype Move =
    | Publish(key: Key, msg: Msg)
    | Load(p: nat)
    | Create(p: nat)
    | LoadOrStore(p: nat)
    | Discard(p: nat)
    | TryAcquire(p: nat)
    | Enqueue(p: nat)
    | Release(p: nat)
    | Visit(key: Key)
    | Skip
    | TryEvict(idle: bool)
    | Delete
    | Stop

  // ---------------------------------------------------------------- the atomic steps

  ghost predicate At(s: State, p: nat) { p < |s.producers| }

  ghost predicate Enabled(s: State, m: Move) {
    match m
    case Publish(_, _) => true
    case Load(p) => At(s, p) && s.producers[p].pc.Loading?
    case Create(p) => At(s, p) && s.producers[p].pc.Creating?
    case LoadOrStore(p) => At(s, p) && s.producers[p].pc.Storing? && s.producers[p].pc.own < |s.buffers|
    case Discard(p) => At(s, p) && s.producers[p].pc.Discarding? && s.producers[p].pc.own < |s.buffers|
    case TryAcquire(p) => At(s, p) && s.producers[p].pc.Loaded? && s.producers[p].pc.b < |s.buffers|
    case Enqueue(p) => At(s, p) && s.producers[p].pc.Holding? && s.producers[p].pc.b < |s.buffers|
    case Release(p) =>
      && At(s, p) && s.producers[p].pc.Sent? && s.producers[p].pc.b < |s.buffers|
      && s.buffers[s.producers[p].pc.b].readers > 0
    case Visit(k) => s.evictor.Ranging? && k in s.table
    case Skip => s.evictor.Visiting?
    case TryEvict(_) => s.evictor.Visiting? && s.evictor.b < |s.buffers| && s.buffers[s.evictor.b].readers == 0
    case Delete => s.evictor.Deleting? && s.evictor.b < |s.buffers|
    case Stop => s.evictor.Stopping? && s.evictor.b < |s.buffers|
  }

  function SetPc(s: State, p: nat, pc: Pc): State
    requires p < |s.producers|
  {
    s.(producers := s.producers[p := s.producers[p].(pc := pc)])
  }

  function SetBuffer(s: State, b: nat, x: Buffer): State
    requires b < |s.buffers|
  {
    s.(buffers := s.buffers[b := x])
  }

  function DoLoad(s: State, p: nat): State
    requires p < |s.producers|
  {
    var k := s.producers[p].key;
    SetPc(s, p, if k in s.table then Loaded(s.table[k]) else Creating)
  }

  function DoCreate(s: State, p: nat): State
    requires p < |s.producers|
  {
    var own := Buffer(s.producers[p].key, p, false, false, false, 0, []);
    SetPc(s, p, Storing(|s.buffers|)).(buffers := s.buffers + [own])
  }

  function DoLoadOrStore(s: State, p: nat): State
    requires p < |s.producers| && s.producers[p].pc.Storing? && s.producers[p].pc.own < |s.buffers|
  {
    var k, own := s.producers[p].key, s.producers[p].pc.own;
    if k in s.table then SetPc(s, p, Discarding(own, s.table[k]))
    else SetBuffer(SetPc(s, p, Loaded(own)), own, s.buffers[own].(stored := true)).(table := s.table[k := own])
  }

  function DoDiscard(s: State, p: nat): State
    requires p < |s.producers| && s.producers[p].pc.Discarding? && s.producers[p].pc.own < |s.buffers|
  {
    var own := s.producers[p].pc.own;
    SetBuffer(SetPc(s, p, Loaded(s.producers[p].pc.found)), own, s.buffers[own].(stopped := true))
  }

  function DoTryAcquire(s: State, p: nat): State
    requires p < |s.producers| && s.producers[p].pc.Loaded? && s.producers[p].pc.b < |s.buffers|
  {
    var b := s.producers[p].pc.b;
    if s.buffers[b].closed then SetPc(s, p, Loading)
    else SetBuffer(SetPc(s, p, Holding(b)), b, s.buffers[b].(readers := s.buffers[b].readers + 1))
  }

  function DoEnqueue(s: State, p: nat): State
    requires p < |s.producers| && s.producers[p].pc.Holding? && s.producers[p].pc.b < |s.buffers|
  {
    var b := s.producers[p].pc.b;
    SetBuffer(SetPc(s, p, Sent(b)), b, s.buffers[b].(received := s.buffers[b].received + [s.producers[p].msg]))
  }

  function DoRelease(s: State, p: nat): State
    requires p < |s.producers| && s.producers[p].pc.Sent? && s.producers[p].pc.b < |s.buffers|
    requires s.buffers[s.producers[p].pc.b].readers > 0
  {
    var b := s.producers[p].pc.b;
    SetBuffer(SetPc(s, p, Finished), b, s.buffers[b].(readers := s.buffers[b].readers - 1))
  }

  function DoTryEvict(s: State, idle: bool): State
    requires s.evictor.Visiting? && s.evictor.b < |s.buffers|
  {
    var b := s.evictor.b;
    if s.buffers[b].closed || !idle then s.(evictor := Ranging)
    else SetBuffer(s, b, s.buffers[b].(closed := true)).(evictor := Deleting(b))
  }

  /** The deletion is by key: it removes whatever the map holds there. */
  function DoDelete(s: State): State
    requires s.evictor.Deleting? && s.evictor.b < |s.buffers|
  {
    s.(table := s.table - {s.buffers[s.evictor.b].key}, evictor := Stopping(s.evictor.b))
  }

  function DoStop(s: State): State
    requires s.evictor.Stopping? && s.evictor.b < |s.buffers|
  {
    SetBuffer(s, s.evictor.b, s.buffers[s.evictor.b].(stopped := true)).(evictor := Ranging)
  }

  ghost function Do(s: State, m: Move): State
    requires Enabled(s, m)
  {
    match m
    case Publish(k, msg) => s.(producers := s.producers + [Producer(k, msg, Loading)])
    case Load(p) => DoLoad(s, p)
    case Create(p) => DoCreate(s, p)
    case LoadOrStore(p) => DoLoadOrStore(s, p)
    case Discard(p) => DoDiscard(s, p)
    case TryAcquire(p) => DoTryAcquire(s, p)
    case Enqueue(p) => DoEnqueue(s, p)
    case Release(p) => DoRelease(s, p)
    case Visit(k) => s.(evictor := Visiting(s.table[k]))
    case Skip => s.(evictor := Ranging)
    case TryEvict(idle) => DoTryEvict(s, idle)
    case Delete => DoDelete(s)
    case Stop => DoStop(s)
  }

  ghost predicate Steps(s: State, m: Move, s': State) { Enabled(s, m) && s' == Do(s, m) }
  ghost predicate Next(s: State, s': State) { exists m: Move :: Steps(s, m, s') }

  ghost predicate Behaviour(trace: seq<State>) {
    && |trace| > 0
    && trace[0] == Init
    && forall i | 0 <= i < |trace| - 1 :: NextAt(trace, i)
  }

  ghost predicate NextAt(trace: seq<State>, i: int)
    requires 0 <= i < |trace| - 1
  {
    Next(trace[i], trace[i + 1])
  }

  lemma PrefixIsBehaviour(trace: seq<State>)
    requires Behaviour(trace) && |trace| > 1
    ensures Behaviour(trace[..|trace| - 1])
  {
    var init := trace[..|trace| - 1];
    forall i | 0 <= i < |init| - 1 ensures NextAt(init, i) {
      assert NextAt(trace, i);
    }
  }

  // ---------------------------------------------------------------- what holds throughout

  function Holds(b: nat): Producer -> int {
    (x: Producer) => if (x.pc.Holding? || x.pc.Sent?) && x.pc.b == b then 1 else 0
  }

  ghost predicate InTable(s: State, b: nat)
    requires b < |s.buffers|
  {
    s.buffers[b].key in s.table && s.table[s.buffers[b].key] == b
  }

  ghost predicate BufferOk(s: State, b: nat)
    requires b < |s.buffers|
  {
    var x := s.buffers[b];
    && x.readers == Sum(s.producers, Holds(b))
    && (!x.stored ==> !x.closed && x.readers == 0 && x.received == [])
    && (x.closed ==> x.readers == 0)
    && (x.stored && !x.closed ==> InTable(s, b) && !x.stopped)
    && (x.closed && InTable(s, b) ==> s.evictor == Deleting(b))
  }

  ghost predicate Names(s: State, p: nat, b: nat)
    requires p < |s.producers|
  {
    b < |s.buffers| && s.buffers[b].stored && s.buffers[b].key == s.producers[p].key
  }

  ghost predicate Owns(s: State, p: nat, own: nat)
    requires p < |s.producers|
  {
    && own < |s.buffers|
    && !s.buffers[own].stored
    && s.buffers[own].creator == p
    && s.buffers[own].key == s.producers[p].key
  }

  ghost predicate ProducerOk(s: State, p: nat)
    requires p < |s.producers|
  {
    match s.producers[p].pc
    case Storing(own) => Owns(s, p, own) && !s.buffers[own].stopped
    case Discarding(own, found) => Owns(s, p, own) && Names(s, p, found)
    case Loaded(b) => Names(s, p, b)
    case Holding(b) => Names(s, p, b) && !s.buffers[b].closed
    case Sent(b) => Names(s, p, b) && !s.buffers[b].closed
    case _ => true
  }

  ghost predicate EvictorOk(s: State) {
    match s.evictor
    case Ranging => true
    case Visiting(b) => b < |s.buffers| && s.buffers[b].stored && InTable(s, b)
    case Deleting(b) => b < |s.buffers| && s.buffers[b].closed && s.buffers[b].stored && InTable(s, b)
    case Stopping(b) => b < |s.buffers| && s.buffers[b].closed && s.buffers[b].stored && !InTable(s, b)
  }

  ghost predicate TableOk(s: State) {
    forall k | k in s.table ::
      s.table[k] < |s.buffers| && s.buffers[s.table[k]].key == k && s.buffers[s.table[k]].stored
  }

  ghost predicate Inv(s: State) {
    && TableOk(s)
    && EvictorOk(s)
    && (forall b: nat | b < |s.buffers| :: BufferOk(s, b))
    && (forall p: nat | p < |s.producers| :: ProducerOk(s, p))
  }

  // ---------------------------------------------------------------- one step

  /** How one producer's move changes the number of producers on buffer `b`. */
  lemma Readers(s: State, p: nat, pc: Pc, b: nat)
    requires p < |s.producers|
    ensures Sum(SetPc(s, p, pc).producers, Holds(b))
         == Sum(s.producers, Holds(b)) - Holds(b)(s.producers[p]) + Holds(b)(s.producers[p].(pc := pc))
  {
    SumUpdate(s.producers, p, s.producers[p].(pc := pc), Holds(b));
  }

  lemma PublishKeeps(s: State, x: Producer)
    requires Inv(s) && x.pc.Loading?
    ensures Inv(s.(producers := s.producers + [x]))
  {
    var s' := s.(producers := s.producers + [x]);
    forall b: nat | b < |s'.buffers| ensures BufferOk(s', b) {
      assert BufferOk(s, b);
      SumAppend(s.producers, x, Holds(b));
    }
    forall q: nat | q < |s'.producers| ensures ProducerOk(s', q) {
      assert q < |s.producers| ==> ProducerOk(s, q);
    }
  }

  lemma LoadKeeps(s: State, p: nat)
    requires Inv(s) && Enabled(s, Load(p))
    ensures Inv(DoLoad(s, p))
  {
    var s' := DoLoad(s, p);
    forall b: nat | b < |s'.buffers| ensures BufferOk(s', b) {
      assert BufferOk(s, b);
      Readers(s, p, s'.producers[p].pc, b);
    }
    forall q: nat | q < |s'.producers| ensures ProducerOk(s', q) {
      assert ProducerOk(s, q);
    }
  }

  lemma {:induction false} NoneHolds(s: State, b: nat)
    requires forall p: nat | p < |s.producers| :: ProducerOk(s, p)
    requires |s.buffers| <= b
    ensures Sum(s.producers, Holds(b)) == 0
  {
    forall x | x in s.producers ensures Holds(b)(x) == 0 {
      var p: nat :| p < |s.producers| && s.producers[p] == x;
      assert ProducerOk(s, p);
    }
    SumIsZero(s.producers, Holds(b));
  }

  lemma CreateKeeps(s: State, p: nat)
    requires Inv(s) && Enabled(s, Create(p))
    ensures Inv(DoCreate(s, p))
  {
    var s' := DoCreate(s, p);
    NoneHolds(s, |s.buffers|);
    forall b: nat | b < |s'.buffers| ensures BufferOk(s', b) {
      assert b < |s.buffers| ==> BufferOk(s, b);
      Readers(s, p, s'.producers[p].pc, b);
    }
    forall q: nat | q < |s'.producers| ensures ProducerOk(s', q) {
      assert ProducerOk(s, q);
    }
  }

  lemma {:induction false} LoadedKeeps(s: State, p: nat)
    requires Inv(s) && Enabled(s, LoadOrStore(p)) && s.producers[p].key in s.table
    ensures Inv(DoLoadOrStore(s, p))
  {
    var s' := DoLoadOrStore(s, p);
    assert ProducerOk(s, p);
    forall b: nat | b < |s'.buffers| ensures BufferOk(s', b) {
      assert BufferOk(s, b);
      Readers(s, p, s'.producers[p].pc, b);
    }
    forall q: nat | q < |s'.producers| ensures ProducerOk(s', q) {
      assert ProducerOk(s, q);
    }
  }

  lemma {:induction false} StoredKeeps(s: State, p: nat)
    requires Inv(s) && Enabled(s, LoadOrStore(p)) && s.producers[p].key !in s.table
    ensures Inv(DoLoadOrStore(s, p))
  {
    var s' := DoLoadOrStore(s, p);
    assert ProducerOk(s, p);
    forall b: nat | b < |s'.buffers| ensures BufferOk(s', b) {
      assert BufferOk(s, b);
      Readers(s, p, s'.producers[p].pc, b);
    }
    forall q: nat | q < |s'.producers| ensures ProducerOk(s', q) {
      assert ProducerOk(s, q);
    }
  }

  lemma LoadOrStoreKeeps(s: State, p: nat)
    requires Inv(s) && Enabled(s, LoadOrStore(p))
    ensures Inv(DoLoadOrStore(s, p))
  {
    if s.producers[p].key in s.table {
      LoadedKeeps(s, p);
    } else {
      StoredKeeps(s, p);
    }
  }

  lemma DiscardKeeps(s: State, p: nat)
    requires Inv(s) && Enabled(s, Discard(p))
    ensures Inv(DoDiscard(s, p))
  {
    var s' := DoDiscard(s, p);
    assert ProducerOk(s, p);
    forall b: nat | b < |s'.buffers| ensures BufferOk(s', b) {
      assert BufferOk(s, b);
      Readers(s, p, s'.producers[p].pc, b);
    }
    forall q: nat | q < |s'.producers| ensures ProducerOk(s', q) {
      assert ProducerOk(s, q);
    }
  }

  lemma TryAcquireKeeps(s: State, p: nat)
    requires Inv(s) && Enabled(s, TryAcquire(p))
    ensures Inv(DoTryAcquire(s, p))
  {
    var s' := DoTryAcquire(s, p);
    assert ProducerOk(s, p);
    forall b: nat | b < |s'.buffers| ensures BufferOk(s', b) {
      assert BufferOk(s, b);
      Readers(s, p, s'.producers[p].pc, b);
    }
    forall q: nat | q < |s'.producers| ensures ProducerOk(s', q) {
      assert ProducerOk(s, q);
    }
  }

  lemma EnqueueKeeps(s: State, p: nat)
    requires Inv(s) && Enabled(s, Enqueue(p))
    ensures Inv(DoEnqueue(s, p))
  {
    var s' := DoEnqueue(s, p);
    assert ProducerOk(s, p);
    forall b: nat | b < |s'.buffers| ensures BufferOk(s', b) {
      assert BufferOk(s, b);
      Readers(s, p, s'.producers[p].pc, b);
    }
    forall q: nat | q < |s'.producers| ensures ProducerOk(s', q) {
      assert ProducerOk(s, q);
    }
  }

  lemma ReleaseKeeps(s: State, p: nat)
    requires Inv(s) && Enabled(s, Release(p))
    ensures Inv(DoRelease(s, p))
  {
    var s' := DoRelease(s, p);
    assert ProducerOk(s, p);
    forall b: nat | b < |s'.buffers| ensures BufferOk(s', b) {
      assert BufferOk(s, b);
      Readers(s, p, s'.producers[p].pc, b);
    }
    forall q: nat | q < |s'.producers| ensures ProducerOk(s', q) {
      assert ProducerOk(s, q);
    }
  }

  /** A buffer with no readers has no producer in the middle of an enqueue. */
  lemma NoReaders(s: State, b: nat, p: nat)
    requires p < |s.producers| && Sum(s.producers, Holds(b)) == 0
    ensures Holds(b)(s.producers[p]) == 0
  {
    SumTerm(s.producers, p, Holds(b));
  }

  lemma TryEvictKeeps(s: State, idle: bool)
    requires Inv(s) && Enabled(s, TryEvict(idle))
    ensures Inv(DoTryEvict(s, idle))
  {
    var s', e := DoTryEvict(s, idle), s.evictor.b;
    assert BufferOk(s, e);
    forall b: nat | b < |s'.buffers| ensures BufferOk(s', b) {
      assert BufferOk(s, b);
    }
    forall q: nat | q < |s'.producers| ensures ProducerOk(s', q) {
      assert ProducerOk(s, q);
      NoReaders(s, e, q);
    }
  }

  lemma EvictorStepKeeps(s: State, m: Move)
    requires Inv(s) && Enabled(s, m) && (m.Visit? || m.Skip? || m.Delete? || m.Stop?)
    ensures Inv(Do(s, m))
  {
    var s' := Do(s, m);
    forall b: nat | b < |s'.buffers| ensures BufferOk(s', b) {
      assert BufferOk(s, b);
    }
    forall q: nat | q < |s'.producers| ensures ProducerOk(s', q) {
      assert ProducerOk(s, q);
    }
  }

  lemma StepKeeps(s: State, m: Move, s': State)
    requires Inv(s) && Steps(s, m, s')
    ensures Inv(s')
  {
    match m
    case Publish(k, msg) => PublishKeeps(s, Producer(k, msg, Loading));
    case Load(p) => LoadKeeps(s, p);
    case Create(p) => CreateKeeps(s, p);
    case LoadOrStore(p) => LoadOrStoreKeeps(s, p);
    case Discard(p) => DiscardKeeps(s, p);
    case TryAcquire(p) => TryAcquireKeeps(s, p);
    case Enqueue(p) => EnqueueKeeps(s, p);
    case Release(p) => ReleaseKeeps(s, p);
    case TryEvict(idle) => TryEvictKeeps(s, idle);
    case _ => EvictorStepKeeps(s, m);
  }

  // ---------------------------------------------------------------- every interleaving

  lemma {:induction false} BehaviourKeepsInv(trace: seq<State>)
    requires Behaviour(trace)
    ensures forall i | 0 <= i < |trace| :: Inv(trace[i])
    decreases |trace|
  {
    var n := |trace| - 1;
    if n > 0 {
      PrefixIsBehaviour(trace);
      BehaviourKeepsInv(trace[..n]);
      assert Inv(trace[..n][n - 1]);
      assert NextAt(trace, n - 1);
      var m: Move :| Steps(trace[n - 1], m, trace[n]);
      StepKeeps(trace[n - 1], m, trace[n]);
      forall i | 0 <= i < n ensures Inv(trace[i]) {
        assert Inv(trace[..n][i]);
      }
    }
  }

  /** A producer about to enqueue, or not yet done with it, has an open, running buffer that is the map's own. */
  ghost predicate HeldAreLive(s: State) {
    forall p: nat | p < |s.producers| && (s.producers[p].pc.Holding? || s.producers[p].pc.Sent?) ::
      var b := s.producers[p].pc.b;
      && b < |s.buffers| && !s.buffers[b].closed && !s.buffers[b].stopped
      && s.producers[p].key in s.table && s.table[s.producers[p].key] == b
  }

  /** What the evictor deletes by key is the buffer it has closed. */
  ghost predicate DeletesWhatItClosed(s: State) {
    s.evictor.Deleting? ==>
      var b := s.evictor.b;
      b < |s.buffers| && s.buffers[b].closed && s.buffers[b].key in s.table && s.table[s.buffers[b].key] == b
  }

  /** A buffer that never made it into the map holds no message, and one that is stopped has no producer on it. */
  ghost predicate DiscardedAreUnused(s: State) {
    forall b: nat | b < |s.buffers| ::
      && (!s.buffers[b].stored ==> s.buffers[b].received == [])
      && (s.buffers[b].stopped ==> Sum(s.producers, Holds(b)) == 0)
  }

  lemma EvictionIsSafe(trace: seq<State>, i: nat)
    requires Behaviour(trace) && i < |trace|
    ensures HeldAreLive(trace[i])
    ensures DeletesWhatItClosed(trace[i])
    ensures DiscardedAreUnused(trace[i])
  {
    BehaviourKeepsInv(trace);
    var s := trace[i];
    forall p: nat | p < |s.producers| && (s.producers[p].pc.Holding? || s.producers[p].pc.Sent?)
      ensures s.producers[p].pc.b < |s.buffers| && BufferOk(s, s.producers[p].pc.b) && ProducerOk(s, p)
    {
      assert ProducerOk(s, p);
    }
    forall b: nat | b < |s.buffers|
      ensures !s.buffers[b].stored ==> s.buffers[b].received == []
      ensures s.buffers[b].stopped ==> Sum(s.producers, Holds(b)) == 0
    {
      assert BufferOk(s, b);
    }
  }

  /** A read lock that was taken can be given back. */
  lemma ReleaseNeverBlocks(trace: seq<State>, i: nat, p: nat)
    requires Behaviour(trace) && i < |trace|
    requires p < |trace[i].producers| && trace[i].producers[p].pc.Sent?
    ensures Enabled(trace[i], Release(p))
  {
    BehaviourKeepsInv(trace);
    var s := trace[i];
    assert ProducerOk(s, p);
    assert BufferOk(s, s.producers[p].pc.b);
    SumTerm(s.producers, p, Holds(s.producers[p].pc.b));
  }

  lemma StepAt(trace: seq<State>, i: nat) returns (m: Move)
    requires Behaviour(trace) && i < |trace| - 1
    ensures Inv(trace[i]) && Steps(trace[i], m, trace[i + 1])
  {
    BehaviourKeepsInv(trace);
    assert NextAt(trace, i);
    m :| Steps(trace[i], m, trace[i + 1]);
  }

  lemma ClosedStep(s: State, m: Move, s': State, b: nat)
    requires Inv(s) && Steps(s, m, s') && b < |s.buffers|
    ensures b < |s'.buffers|
    ensures s.buffers[b].closed ==> s'.buffers[b].closed && s'.buffers[b].received == s.buffers[b].received
    ensures s.buffers[b].closed && !InTable(s, b) ==> !InTable(s', b)
  {
    if m.Enqueue? {
      assert ProducerOk(s, m.p);
    }
    if m.LoadOrStore? {
      assert ProducerOk(s, m.p);
      assert BufferOk(s, b);
    }
  }

  /** Closing is final: nothing is enqueued afterwards, and a deleted buffer never returns to the map. */
  lemma {:induction false} ClosedIsFinal(trace: seq<State>, i: nat, j: nat, b: nat)
    requires Behaviour(trace) && i <= j < |trace|
    requires b < |trace[i].buffers| && trace[i].buffers[b].closed
    ensures b < |trace[j].buffers| && trace[j].buffers[b].closed
    ensures trace[j].buffers[b].received == trace[i].buffers[b].received
    ensures !InTable(trace[i], b) ==> !InTable(trace[j], b)
    decreases j
  {
    if i < j {
      ClosedIsFinal(trace, i, j - 1, b);
      var m := StepAt(trace, j - 1);
      ClosedStep(trace[j - 1], m, trace[j], b);
    }
  }

  // ---------------------------------------------------------------- every message arrives

  predicate HasSent(x: Producer) { x.pc.Sent? || x.pc.Finished? }

  function Is(msg: Msg): Msg -> int { (x: Msg) => if x == msg then 1 else 0 }

  /** How often the buffer has received `msg`, if it is one of key `k`. */
  function Received(k: Key, msg: Msg): Buffer -> int {
    (x: Buffer) => if x.key == k then Sum(x.received, Is(msg)) else 0
  }

  function SentAs(k: Key, msg: Msg): Producer -> int {
    (x: Producer) => if x.key == k && x.msg == msg && HasSent(x) then 1 else 0
  }

  /** The buffers of a key have received what its producers are done with, each message as often as it was sent. */
  ghost predicate Arrived(s: State, k: Key, msg: Msg) {
    Sum(s.buffers, Received(k, msg)) == Sum(s.producers, SentAs(k, msg))
  }

  lemma {:induction false} ReceivedNext(x: Buffer, sent: Msg, k: Key, msg: Msg)
    ensures Received(k, msg)(x.(received := x.received + [sent])) ==
      Received(k, msg)(x) + (if x.key == k && sent == msg then 1 else 0)
  {
    SumAppend(x.received, sent, Is(msg));
  }

  lemma {:induction false} EnqueueArrives(s: State, p: nat, k: Key, msg: Msg)
    requires Inv(s) && Enabled(s, Enqueue(p)) && Arrived(s, k, msg)
    ensures Arrived(DoEnqueue(s, p), k, msg)
  {
    var x, b := s.producers[p], s.producers[p].pc.b;
    assert ProducerOk(s, p);
    SumUpdate(s.producers, p, x.(pc := Sent(b)), SentAs(k, msg));
    SumUpdate(s.buffers, b, s.buffers[b].(received := s.buffers[b].received + [x.msg]), Received(k, msg));
    ReceivedNext(s.buffers[b], x.msg, k, msg);
  }

  /** What a producer's move other than the enqueue does to buffer `b` and to itself is no message. */
  lemma SameMessages(s: State, p: nat, pc: Pc, b: nat, x: Buffer, k: Key, msg: Msg)
    requires p < |s.producers| && HasSent(s.producers[p]) == HasSent(s.producers[p].(pc := pc)) && Arrived(s, k, msg)
    requires b < |s.buffers| && x.key == s.buffers[b].key && x.received == s.buffers[b].received
    ensures Arrived(SetPc(s, p, pc), k, msg) && Arrived(SetBuffer(SetPc(s, p, pc), b, x), k, msg)
  {
    SumUpdate(s.producers, p, s.producers[p].(pc := pc), SentAs(k, msg));
    SumUpdate(s.buffers, b, x, Received(k, msg));
  }

  lemma SamePc(s: State, p: nat, pc: Pc, k: Key, msg: Msg)
    requires p < |s.producers| && HasSent(s.producers[p]) == HasSent(s.producers[p].(pc := pc)) && Arrived(s, k, msg)
    ensures Arrived(SetPc(s, p, pc), k, msg)
  {
    SumUpdate(s.producers, p, s.producers[p].(pc := pc), SentAs(k, msg));
  }

  lemma SameBuffer(s: State, b: nat, x: Buffer, k: Key, msg: Msg)
    requires b < |s.buffers| && x.key == s.buffers[b].key && x.received == s.buffers[b].received && Arrived(s, k, msg)
    ensures Arrived(SetBuffer(s, b, x), k, msg)
  {
    SumUpdate(s.buffers, b, x, Received(k, msg));
  }

  lemma ProducerArrives(s: State, m: Move, s': State, k: Key, msg: Msg)
    requires Inv(s) && Steps(s, m, s') && Arrived(s, k, msg)
    requires m.Load? || m.LoadOrStore? || m.Discard? || m.TryAcquire? || m.Release?
    ensures Arrived(s', k, msg)
  {
    var p := m.p;
    assert ProducerOk(s, p);
    SamePc(s, p, s'.producers[p].pc, k, msg);
    if s'.buffers != s.buffers {
      var b := if m.LoadOrStore? || m.Discard? then s.producers[p].pc.own else s.producers[p].pc.b;
      SameMessages(s, p, s'.producers[p].pc, b, s'.buffers[b], k, msg);
    }
  }

  lemma StepArrives(s: State, m: Move, s': State, k: Key, msg: Msg)
    requires Inv(s) && Steps(s, m, s') && Arrived(s, k, msg)
    ensures Arrived(s', k, msg)
  {
    match m
    case Publish(key, x) => SumAppend(s.producers, Producer(key, x, Loading), SentAs(k, msg));
    case Create(p) =>
      SamePc(s, p, Storing(|s.buffers|), k, msg);
      SumAppend(s.buffers, Buffer(s.producers[p].key, p, false, false, false, 0, []), Received(k, msg));
    case Enqueue(p) => EnqueueArrives(s, p, k, msg);
    case TryEvict(_) => SameBuffer(s, s.evictor.b, s'.buffers[s.evictor.b], k, msg);
    case Stop => SameBuffer(s, s.evictor.b, s'.buffers[s.evictor.b], k, msg);
    case Visit(_) =>
    case Skip =>
    case Delete =>
    case _ => ProducerArrives(s, m, s', k, msg);
  }

  /** In every run no message of a producer that is done is lost, sent twice or put into another key's buffer. */
  lemma {:induction false} EveryMessageArrives(trace: seq<State>, i: nat, k: Key, msg: Msg)
    requires Behaviour(trace) && i < |trace|
    ensures Arrived(trace[i], k, msg)
  {
    if i > 0 {
      EveryMessageArrives(trace, i - 1, k, msg);
      var m := StepAt(trace, i - 1);
      StepArrives(trace[i - 1], m, trace[i], k, msg);
    }
  }

  // ---------------------------------------------------------------- nobody blocks, nothing leaks

  /** What a producer does next. */
  function NextMove(p: nat, pc: Pc): Move
    requires !pc.Finished?
  {
    match pc
    case Loading => Load(p)
    case Creating => Create(p)
    case Storing(_) => LoadOrStore(p)
    case Discarding(_, _) => Discard(p)
    case Loaded(_) => TryAcquire(p)
    case Holding(_) => Enqueue(p)
    case Sent(_) => Release(p)
  }

  /** A producer that is not done can always go on, and goes back to the map only from a closed buffer. */
  lemma ProducersNeverBlock(trace: seq<State>, i: nat, p: nat)
    requires Behaviour(trace) && i < |trace|
    requires p < |trace[i].producers| && !trace[i].producers[p].pc.Finished?
    ensures var s, m := trace[i], NextMove(p, trace[i].producers[p].pc);
      && Enabled(s, m)
      && (Do(s, m).producers[p].pc.Loading? <==> m.TryAcquire? && s.buffers[s.producers[p].pc.b].closed)
  {
    BehaviourKeepsInv(trace);
    assert ProducerOk(trace[i], p);
    if trace[i].producers[p].pc.Sent? {
      ReleaseNeverBlocks(trace, i, p);
    }
  }

  /** The producer is about to store or to discard the buffer it has made. */
  ghost predicate OwnedBy(s: State, b: nat, p: nat) {
    && p < |s.producers|
    && match s.producers[p].pc
       case Storing(own) => own == b
       case Discarding(own, _) => own == b
       case _ => false
  }

  /** A buffer is stopped, or it is open in the map, or somebody is about to deal with it. */
  ghost predicate Tended(s: State, b: nat)
    requires b < |s.buffers|
  {
    if !s.buffers[b].stored then s.buffers[b].stopped || OwnedBy(s, b, s.buffers[b].creator)
    else if !s.buffers[b].closed then InTable(s, b) && !s.buffers[b].stopped
    else s.buffers[b].stopped || s.evictor == Deleting(b) || s.evictor == Stopping(b)
  }

  lemma UnstoredStaysTended(s: State, m: Move, s': State, b: nat)
    requires Inv(s) && Steps(s, m, s') && b < |s.buffers| && !s.buffers[b].stored && Tended(s, b)
    requires !s'.buffers[b].stored
    ensures Tended(s', b)
  {
    if m.LoadOrStore? || m.Discard? {
      assert ProducerOk(s, m.p);
    }
  }

  lemma StoredStaysTended(s: State, m: Move, s': State, b: nat)
    requires Inv(s) && Steps(s, m, s') && b < |s.buffers| && s.buffers[b].stored && Tended(s, b) && BufferOk(s', b)
    ensures Tended(s', b)
  {}

  lemma StepTends(s: State, m: Move, s': State, b: nat)
    requires Inv(s) && Steps(s, m, s') && b < |s'.buffers| && (b < |s.buffers| ==> Tended(s, b)) && BufferOk(s', b)
    ensures Tended(s', b)
  {
    if b < |s.buffers| {
      if s.buffers[b].stored {
        StoredStaysTended(s, m, s', b);
      } else if !s'.buffers[b].stored {
        UnstoredStaysTended(s, m, s', b);
      } else {
        assert BufferOk(s, b);
      }
    }
  }

  lemma {:induction false} NothingLeaks(trace: seq<State>, i: nat, b: nat)
    requires Behaviour(trace) && i < |trace| && b < |trace[i].buffers|
    ensures Tended(trace[i], b)
  {
    var m := StepAt(trace, i - 1);
    if b < |trace[i - 1].buffers| {
      NothingLeaks(trace, i - 1, b);
    }
    BehaviourKeepsInv(trace);
    StepTends(trace[i - 1], m, trace[i], b);
  }

  /** Only the evictor closes a buffer: one it has found idle, with no producer on it. */
  lemma ClosedOnlyWhenIdle(s: State, m: Move, s': State, b: nat)
    requires Steps(s, m, s') && b < |s.buffers| && !s.buffers[b].closed && s'.buffers[b].closed
    ensures m == TryEvict(true) && s.evictor == Visiting(b) && s.buffers[b].readers == 0
  {}
}
