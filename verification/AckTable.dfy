/**
 Pending acknowledgements of the durable task listener (event acks and eviction acks alike).  A channel
 is taken out of the table under its mutex and sent to after the mutex is released, so sends interleave
 with everything else; the channels hold one message.
 */
module AckTable {

  datatype AckKey = AckKey(task: string, invocation: int)

  datatype Answer = Acked(resp: nat) | Erred(err: nat)

  /** `flying`: channels taken out of the table and what they are to be sent.  `sends[c]`: sends made on channel c. */
  datatype State = State(table: map<AckKey, nat>, flying: map<nat, Answer>, sends: seq<seq<Answer>>)

  const Init := State(map[], map[], [])

  datatype Move =
    | Register(key: AckKey)
    | Withdraw(key: AckKey)
    | Claim(keys: set<AckKey>, answer: Answer)
    | Deliver(c: nat)

  ghost predicate Enabled(s: State, m: Move) {
    m.Deliver? ==> m.c in s.flying && m.c < |s.sends|
  }

  function Taken(s: State, keys: set<AckKey>): set<nat> { set k | k in s.table && k in keys :: s.table[k] }

  /** One answer claims one key, a reset claims them all, a cleanup those of a task. */
  ghost function Do(s: State, m: Move): State
    requires Enabled(s, m)
  {
    match m
    case Register(key) => s.(table := s.table[key := |s.sends|], sends := s.sends + [[]])
    case Withdraw(key) => s.(table := s.table - {key})
    case Claim(keys, answer) =>
      s.(table := s.table - keys, flying := s.flying + map c | c in Taken(s, keys) :: answer)
    case Deliver(c) => s.(flying := s.flying - {c}, sends := s.sends[c := s.sends[c] + [s.flying[c]]])
  }

  ghost predicate Steps(s: State, m: Move, s': State) { Enabled(s, m) && s' == Do(s, m) }

  ghost predicate StepsAt(trace: seq<State>, ms: seq<Move>, i: int)
    requires 0 <= i < |ms| < |trace|
  {
    Steps(trace[i], ms[i], trace[i + 1])
  }

  ghost predicate Behaviour(trace: seq<State>, ms: seq<Move>) {
    |trace| == |ms| + 1 && trace[0] == Init && forall i | 0 <= i < |ms| :: StepsAt(trace, ms, i)
  }

  /** A channel still in the table or in flight was never sent to, and is in one place only. */
  ghost predicate Inv(s: State) {
    && (forall k | k in s.table :: s.table[k] < |s.sends| && s.sends[s.table[k]] == [] && s.table[k] !in s.flying)
    && (forall k, k' | k in s.table && k' in s.table :: s.table[k] == s.table[k'] ==> k == k')
    && (forall c | c in s.flying :: c < |s.sends| && s.sends[c] == [])
    && (forall c | 0 <= c < |s.sends| :: |s.sends[c]| <= 1)
  }

  lemma ClaimKeeps(s: State, keys: set<AckKey>, answer: Answer)
    requires Inv(s)
    ensures Inv(Do(s, Claim(keys, answer)))
  {
    var s', taken := Do(s, Claim(keys, answer)), Taken(s, keys);
    forall c | c in s'.flying ensures c < |s.sends| && s.sends[c] == [] {
      assert c in s.flying || c in taken;
    }
    forall k | k in s'.table ensures s'.table[k] == s.table[k] && s.table[k] !in taken {}
  }

  lemma StepKeeps(s: State, m: Move)
    requires Inv(s) && Enabled(s, m)
    ensures Inv(Do(s, m))
  {
    match m
    case Claim(keys, answer) => ClaimKeeps(s, keys, answer);
    case _ =>
  }

  /** In every run each channel is sent to at most once, and every send finds it empty. */
  lemma {:induction false} SendsNeverBlock(trace: seq<State>, ms: seq<Move>, i: nat)
    requires Behaviour(trace, ms) && i <= |ms|
    ensures Inv(trace[i])
    ensures forall m: Move | m.Deliver? && Enabled(trace[i], m) :: trace[i].sends[m.c] == []
  {
    if i > 0 {
      SendsNeverBlock(trace, ms, i - 1);
      assert StepsAt(trace, ms, i - 1);
      StepKeeps(trace[i - 1], ms[i - 1]);
    }
  }

  // ---------------------------------------------------------------- what becomes of a channel

  datatype Fate = Waiting | InFlight(answer: Answer) | Told(answer: Answer) | Lost

  ghost predicate InTable(s: State, c: nat) { exists k | k in s.table :: s.table[k] == c }

  ghost function FateOf(s: State, c: nat): Fate
    requires c < |s.sends|
  {
    if InTable(s, c) then Waiting
    else if c in s.flying then InFlight(s.flying[c])
    else if s.sends[c] != [] then Told(s.sends[c][0])
    else Lost
  }

  /** The move takes channel `c` out of the table to send it `a`. */
  ghost predicate Answers(s: State, m: Move, c: nat, a: Answer) {
    m.Claim? && m.answer == a && exists k | k in s.table && k in m.keys :: s.table[k] == c
  }

  /** The move takes the channel's key away from it: its caller leaves, or the key is registered again. */
  ghost predicate Drops(s: State, m: Move, c: nat) {
    (m.Withdraw? || m.Register?) && m.key in s.table && s.table[m.key] == c
  }

  lemma TableNext(s: State, m: Move, s': State, c: nat)
    requires Inv(s) && Steps(s, m, s') && c < |s.sends|
    ensures InTable(s', c) <==> InTable(s, c) && !Drops(s, m, c) && forall a :: !Answers(s, m, c, a)
  {
    if InTable(s, c) {
      var k :| k in s.table && s.table[k] == c;
      if !Drops(s, m, c) && forall a :: !Answers(s, m, c, a) {
        assert m.Claim? ==> !Answers(s, m, c, m.answer);
        assert k in s'.table && s'.table[k] == c;
      }
    }
    if InTable(s', c) {
      var k :| k in s'.table && s'.table[k] == c;
      assert k in s.table && s.table[k] == c;
    }
  }

  /** A channel waits until it is answered or dropped, and an answer once taken up is delivered unchanged. */
  lemma FateNext(s: State, m: Move, s': State, c: nat)
    requires Inv(s) && Steps(s, m, s') && c < |s.sends|
    ensures c < |s'.sends|
    ensures FateOf(s', c) ==
      if FateOf(s, c).Waiting? then
        if Drops(s, m, c) then Lost
        else if m.Claim? && Answers(s, m, c, m.answer) then InFlight(m.answer)
        else Waiting
      else if FateOf(s, c).InFlight? && m == Deliver(c) then Told(FateOf(s, c).answer)
      else FateOf(s, c)
  {
    StepKeeps(s, m);
    TableNext(s, m, s', c);
    if m.Claim? {
      assert c in Taken(s, m.keys) <==> Answers(s, m, c, m.answer);
    }
  }

  ghost predicate AnsweredAt(trace: seq<State>, ms: seq<Move>, c: nat, a: Answer, j: nat)
    requires j < |ms| < |trace|
  {
    Answers(trace[j], ms[j], c, a)
  }

  /** After step `j` took it up, the answer to `c` was delivered before state `i`. */
  ghost predicate DeliveredSince(ms: seq<Move>, c: nat, j: nat, i: nat)
    requires i <= |ms|
  {
    exists k | j < k < i :: ms[k] == Deliver(c)
  }

  ghost predicate TakenUp(trace: seq<State>, ms: seq<Move>, i: nat, c: nat, a: Answer, delivered: bool)
    requires i <= |ms| < |trace|
  {
    exists j | 0 <= j < i :: AnsweredAt(trace, ms, c, a, j) && (DeliveredSince(ms, c, j, i) <==> delivered)
  }

  ghost predicate DroppedBefore(trace: seq<State>, ms: seq<Move>, i: nat, c: nat)
    requires i <= |ms| < |trace|
  {
    exists j | 0 <= j < i :: Drops(trace[j], ms[j], c)
  }

  /** What the run says has become of channel `c`. */
  ghost predicate FateTold(trace: seq<State>, ms: seq<Move>, i: nat, c: nat, fate: Fate)
    requires i <= |ms| < |trace|
  {
    (fate == Lost <==> DroppedBefore(trace, ms, i, c)) && forall a :: AnswerTold(trace, ms, i, c, fate, a)
  }

  ghost predicate AnswerTold(trace: seq<State>, ms: seq<Move>, i: nat, c: nat, fate: Fate, a: Answer)
    requires i <= |ms| < |trace|
  {
    && (fate == InFlight(a) <==> TakenUp(trace, ms, i, c, a, false))
    && (fate == Told(a) <==> TakenUp(trace, ms, i, c, a, true))
  }

  ghost predicate TakenUpNext(trace: seq<State>, ms: seq<Move>, n: nat, i: nat, c: nat, a: Answer)
    requires n < i <= |ms| < |trace|
  {
    && (TakenUp(trace, ms, i, c, a, true) <==>
          TakenUp(trace, ms, n, c, a, true) || (TakenUp(trace, ms, n, c, a, false) && ms[n] == Deliver(c)))
    && (TakenUp(trace, ms, i, c, a, false) <==>
          Answers(trace[n], ms[n], c, a) || (TakenUp(trace, ms, n, c, a, false) && ms[n] != Deliver(c)))
  }

  lemma OneMoreTakenUp(trace: seq<State>, ms: seq<Move>, n: nat, i: nat, c: nat, a: Answer)
    requires n < |ms| < |trace| && i == n + 1
    ensures TakenUpNext(trace, ms, n, i, c, a)
  {
    forall j | 0 <= j < n
      ensures DeliveredSince(ms, c, j, i) <==> DeliveredSince(ms, c, j, n) || ms[n] == Deliver(c)
    {}
    assert !DeliveredSince(ms, c, n, i);
    assert AnsweredAt(trace, ms, c, a, n) <==> Answers(trace[n], ms[n], c, a);
  }

  /** Only a waiting channel is answered or dropped. */
  lemma OnlyWaitingIsTaken(s: State, m: Move, c: nat)
    requires Inv(s)
    ensures Drops(s, m, c) || (exists a :: Answers(s, m, c, a)) ==> c < |s.sends| && FateOf(s, c).Waiting?
  {}

  lemma FateToldNext(trace: seq<State>, ms: seq<Move>, n: nat, i: nat, c: nat)
    requires n < |ms| < |trace| && i == n + 1 && Inv(trace[n]) && Steps(trace[n], ms[n], trace[i])
    requires c < |trace[n].sends| && FateTold(trace, ms, n, c, FateOf(trace[n], c))
    ensures c < |trace[i].sends| && FateTold(trace, ms, i, c, FateOf(trace[i], c))
  {
    FateNext(trace[n], ms[n], trace[i], c);
    OnlyWaitingIsTaken(trace[n], ms[n], c);
    forall a ensures AnswerTold(trace, ms, i, c, FateOf(trace[i], c), a) {
      assert AnswerTold(trace, ms, n, c, FateOf(trace[n], c), a);
      OneMoreTakenUp(trace, ms, n, i, c, a);
    }
    assert DroppedBefore(trace, ms, i, c) <==> DroppedBefore(trace, ms, n, c) || Drops(trace[n], ms[n], c);
  }

  lemma NewIsWaiting(trace: seq<State>, ms: seq<Move>, n: nat, i: nat, c: nat)
    requires n < |ms| < |trace| && i == n + 1 && Steps(trace[n], ms[n], trace[i])
    requires |trace[n].sends| <= c < |trace[i].sends|
    ensures FateOf(trace[i], c) == Waiting
  {
    assert ms[n].key in trace[i].table && trace[i].table[ms[n].key] == c;
  }

  lemma {:induction false} NotKnownBefore(trace: seq<State>, ms: seq<Move>, i: nat, c: nat)
    requires Behaviour(trace, ms) && i <= |ms| && |trace[i].sends| <= c
    ensures forall j | 0 <= j <= i :: |trace[j].sends| <= c
  {
    if i > 0 {
      assert StepsAt(trace, ms, i - 1);
      NotKnownBefore(trace, ms, i - 1, c);
    }
  }

  lemma NothingBefore(trace: seq<State>, ms: seq<Move>, n: nat, i: nat, c: nat)
    requires Behaviour(trace, ms) && n < |ms| && i == n + 1 && |trace[n].sends| <= c
    ensures FateTold(trace, ms, i, c, Waiting)
  {
    NotKnownBefore(trace, ms, n, c);
    forall j | 0 <= j < i ensures !Drops(trace[j], ms[j], c) && forall a :: !AnsweredAt(trace, ms, c, a, j) {
      SendsNeverBlock(trace, ms, j);
      OnlyWaitingIsTaken(trace[j], ms[j], c);
    }
  }

  /**
   In every run a channel holds an answer exactly if a response, an error, a reset or a clean-up has taken its
   key with that answer and it was delivered; it stays empty for good exactly if its key was withdrawn or
   registered again while it waited.
   */
  lemma {:induction false} ToldExactly(trace: seq<State>, ms: seq<Move>, i: nat, c: nat)
    requires Behaviour(trace, ms) && i <= |ms| && c < |trace[i].sends|
    ensures FateTold(trace, ms, i, c, FateOf(trace[i], c))
  {
    var n := i - 1;
    assert StepsAt(trace, ms, n);
    SendsNeverBlock(trace, ms, n);
    if c < |trace[n].sends| {
      ToldExactly(trace, ms, n, c);
      FateToldNext(trace, ms, n, i, c);
    } else {
      NewIsWaiting(trace, ms, n, i, c);
      NothingBefore(trace, ms, n, i, c);
    }
  }
}
