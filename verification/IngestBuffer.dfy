/**
 The ingest buffer of durable task events: requests are collected under a lock, flushed when the batch
 is full or a timer fires, batched at most one per task, and retried one by one when a whole batch fails.
 */
module IngestBuffer {
  import opened Options
  import opened Sums

  type Task = nat
  type Error = nat
  type Value = nat

  datatype Request = Request(id: nat, task: Task)

  // ---------------------------------------------------------------- partitioning one flush

  predicate HasTask(rs: seq<Request>, t: Task) { exists i | 0 <= i < |rs| :: rs[i].task == t }

  /** The first request of each task, in the order of the list. */
  function Firsts(rs: seq<Request>): seq<Request> {
    if rs == [] then [] else
      var n := |rs| - 1;
      if HasTask(rs[..n], rs[n].task) then Firsts(rs[..n]) else Firsts(rs[..n]) + [rs[n]]
  }

  /** The requests whose task occurs earlier in the list. */
  function Deferred(rs: seq<Request>): seq<Request> {
    if rs == [] then [] else
      var n := |rs| - 1;
      if HasTask(rs[..n], rs[n].task) then Deferred(rs[..n]) + [rs[n]] else Deferred(rs[..n])
  }

  ghost predicate OnePerTask(rs: seq<Request>) {
    forall i, j | 0 <= i < j < |rs| :: rs[i].task != rs[j].task
  }

  lemma {:induction false} FirstsCoverTasks(rs: seq<Request>, t: Task)
    ensures HasTask(Firsts(rs), t) <==> HasTask(rs, t)
  {
    if rs != [] {
      var n := |rs| - 1;
      var fs := Firsts(rs[..n]);
      FirstsCoverTasks(rs[..n], t);
      FirstsCoverTasks(rs[..n], rs[n].task);
      if HasTask(fs, t) {
        var i :| 0 <= i < |fs| && fs[i].task == t;
        assert Firsts(rs)[i].task == t;
        var j :| 0 <= j < n && rs[..n][j].task == t;
        assert rs[j].task == t;
      } else if rs[n].task == t {
        assert Firsts(rs)[|fs|].task == t;
      }
    }
  }

  lemma {:induction false} FirstsAreOnePerTask(rs: seq<Request>)
    ensures OnePerTask(Firsts(rs))
  {
    if rs != [] {
      var n := |rs| - 1;
      FirstsAreOnePerTask(rs[..n]);
      FirstsCoverTasks(rs[..n], rs[n].task);
    }
  }

  function Is(r: Request): Request -> int { (x: Request) => if x == r then 1 else 0 }

  /** How many times `r` occurs in `rs`. */
  function Count(rs: seq<Request>, r: Request): int { Sum(rs, Is(r)) }

  lemma CountAppend(rs: seq<Request>, x: Request, r: Request)
    ensures Count(rs + [x], r) == Count(rs, r) + (if x == r then 1 else 0)
  {
    SumAppend(rs, x, Is(r));
  }

  lemma {:induction false} CountNonNegative(rs: seq<Request>, r: Request)
    ensures Count(rs, r) >= 0
  {
    if rs != [] {
      CountNonNegative(rs[..|rs| - 1], r);
    }
  }

  /** Nothing is lost by the partition. */
  lemma {:induction false} PartitionConserves(rs: seq<Request>, r: Request)
    ensures Count(rs, r) == Count(Firsts(rs), r) + Count(Deferred(rs), r)
  {
    if rs != [] {
      var n := |rs| - 1;
      PartitionConserves(rs[..n], r);
      CountAppend(Firsts(rs[..n]), rs[n], r);
      CountAppend(Deferred(rs[..n]), rs[n], r);
    }
  }

  /** Something is always batched. */
  lemma {:induction false} PartitionSizes(rs: seq<Request>)
    ensures |rs| == |Firsts(rs)| + |Deferred(rs)|
    ensures rs != [] ==> Firsts(rs) != []
  {
    if rs != [] {
      PartitionSizes(rs[..|rs| - 1]);
    }
  }

  /** A batched request comes before every deferred request of its task. */
  lemma {:induction false} BatchedIsEarliest(rs: seq<Request>, r: Request)
    requires r in Firsts(rs)
    ensures exists i | 0 <= i < |rs| :: rs[i] == r && !HasTask(rs[..i], r.task)
  {
    var n := |rs| - 1;
    if r in Firsts(rs[..n]) {
      BatchedIsEarliest(rs[..n], r);
      var i :| 0 <= i < n && rs[..n][i] == r && !HasTask(rs[..n][..i], r.task);
      assert rs[..n][..i] == rs[..i];
    }
  }

  /** Requests in the order of their submission. */
  ghost predicate InOrder(rs: seq<Request>) { forall i, j | 0 <= i < j < |rs| :: rs[i].id < rs[j].id }

  lemma InOrderNext(rs: seq<Request>, r: Request)
    requires InOrder(rs) && forall x | x in rs :: x.id < r.id
    ensures InOrder(rs + [r])
  {
    assert forall i | 0 <= i < |rs| :: rs[i] in rs;
  }

  lemma LaterThanAll(rs: seq<Request>, n: nat)
    requires InOrder(rs) && n < |rs|
    ensures forall x | x in rs[..n] :: x.id < rs[n].id
  {}

  /** Batched and deferred requests keep their order. */
  lemma {:induction false} PartitionKeepsOrder(rs: seq<Request>)
    requires InOrder(rs)
    ensures InOrder(Firsts(rs)) && InOrder(Deferred(rs))
    ensures forall r | r in Firsts(rs) || r in Deferred(rs) :: r in rs
  {
    if rs != [] {
      var n := |rs| - 1;
      PartitionKeepsOrder(rs[..n]);
      LaterThanAll(rs, n);
      if HasTask(rs[..n], rs[n].task) {
        InOrderNext(Deferred(rs[..n]), rs[n]);
      } else {
        InOrderNext(Firsts(rs[..n]), rs[n]);
      }
    }
  }

  lemma HasTaskNext(rs: seq<Request>, k: nat, t: Task)
    requires k < |rs|
    ensures HasTask(rs[..k + 1], t) <==> HasTask(rs[..k], t) || rs[k].task == t
  {
    if HasTask(rs[..k], t) {
      var i :| 0 <= i < k && rs[..k][i].task == t;
      assert rs[..k + 1][i].task == t;
    }
    assert rs[..k + 1][k].task == rs[k].task;
  }

  /** `batch` holds the first request of every task in `rs`. */
  ghost predicate HoldsFirsts(rs: seq<Request>, batch: map<Task, Request>) {
    && (forall t :: t in batch <==> HasTask(rs, t))
    && (forall r | r in Firsts(rs) :: r.task in batch && batch[r.task] == r)
  }

  lemma HoldsNext(rs: seq<Request>, k: nat, batch: map<Task, Request>)
    requires k < |rs| && HoldsFirsts(rs[..k], batch)
    ensures HoldsFirsts(rs[..k + 1], if rs[k].task in batch then batch else batch[rs[k].task := rs[k]])
    ensures Deferred(rs[..k + 1]) == if rs[k].task in batch then Deferred(rs[..k]) + [rs[k]] else Deferred(rs[..k])
  {
    assert rs[..k + 1][..k] == rs[..k] && rs[..k + 1][k] == rs[k];
    forall t ensures HasTask(rs[..k + 1], t) <==> HasTask(rs[..k], t) || rs[k].task == t {
      HasTaskNext(rs, k, t);
    }
    FirstsCoverTasks(rs[..k], rs[k].task);
  }

  method Partition(requests: seq<Request>) returns (batch: map<Task, Request>, deferred: seq<Request>)
    ensures deferred == Deferred(requests) && HoldsFirsts(requests, batch)
  {
    batch, deferred := map[], [];
    for k := 0 to |requests|
      invariant deferred == Deferred(requests[..k]) && HoldsFirsts(requests[..k], batch)
    {
      HoldsNext(requests, k, batch);
      var r := requests[k];
      if r.task in batch {
        deferred := deferred + [r];
      } else {
        batch := batch[r.task := r];
      }
    }
    assert requests[..|requests|] == requests;
  }

  // ---------------------------------------------------------------- the buffer's own state

  /** What a submission or a timer does with the lock held. `toFlush` is empty when nothing is flushed. */
  datatype Locked = Locked(pending: seq<Request>, scheduled: bool, toFlush: seq<Request>, startTimer: bool)

  function SubmitLocked(pending: seq<Request>, scheduled: bool, maxBatchSize: int, r: Request): Locked {
    var all := pending + [r];
    if |all| >= maxBatchSize then Locked([], false, all, false)
    else Locked(all, true, [], !scheduled)
  }

  class Buffer {
    var pending: seq<Request>
    var flushScheduled: bool
    const maxBatchSize: int

    constructor (maxBatchSize: int)
      ensures pending == [] && !flushScheduled && this.maxBatchSize == maxBatchSize
    {
      this.maxBatchSize := maxBatchSize;
      pending := [];
      flushScheduled := false;
    }

    method Submit(request: Request) returns (toFlush: seq<Request>, startTimer: bool)
      modifies this
      ensures Locked(pending, flushScheduled, toFlush, startTimer)
           == SubmitLocked(old(pending), old(flushScheduled), maxBatchSize, request)
    {
      toFlush, startTimer := [], false;
      pending := pending + [request];
      if |pending| >= maxBatchSize {
        toFlush := pending;
        pending := [];
        flushScheduled := false;
      } else if !flushScheduled {
        flushScheduled := true;
        startTimer := true;
      }
    }

    method TakePending() returns (toFlush: seq<Request>)
      modifies this
      ensures pending == [] && !flushScheduled && toFlush == old(pending)
    {
      toFlush := pending;
      pending := [];
      flushScheduled := false;
    }
  }

  // ---------------------------------------------------------------- the flush protocol

  datatype Config = Config(maxBatchSize: int, maxConcurrentFlushes: nat)

  /** `retry` marks a flush started for one request of a batch that failed as a whole. */
  datatype Job =
    | Waiting(requests: seq<Request>, retry: bool)
    | Ingesting(batch: seq<Request>, deferred: seq<Request>, retry: bool)
    | Over

  /** What one append reports: an error for the batch as a whole, or results and errors by task. */
  datatype Outcome = Failed(error: Error) | Done(results: map<Task, Value>, taskErrors: map<Task, Error>)

  /** What a caller is told. A task without an error may be without a result too. */
  datatype Answer = Erred(error: Error) | Got(result: Option<Value>)

  datatype Reply = Reply(request: Request, answer: Answer)

  datatype State = State(
    submitted: seq<Request>,
    pending: seq<Request>,
    scheduled: bool,
    timers: nat,
    jobs: seq<Job>,
    ingested: seq<Request>,
    replies: seq<Reply>)

  const Init := State([], [], false, 0, [], [], [])

  datatype Move = Submit(task: Task) | TimerFires | Begin(j: nat) | Finish(j: nat, outcome: Outcome)

  function IsIngesting(x: Job): int { if x.Ingesting? then 1 else 0 }

  ghost predicate Enabled(cfg: Config, s: State, m: Move) {
    match m
    case Submit(_) => true
    case TimerFires => s.timers > 0
    case Begin(j) => j < |s.jobs| && s.jobs[j].Waiting? && Sum(s.jobs, IsIngesting) < cfg.maxConcurrentFlushes
    case Finish(j, _) => j < |s.jobs| && s.jobs[j].Ingesting?
  }

  function FlushJobs(rs: seq<Request>): seq<Job> { if rs == [] then [] else [Waiting(rs, false)] }

  function RetryJobs(rs: seq<Request>): seq<Job> {
    if rs == [] then [] else RetryJobs(rs[..|rs| - 1]) + [Waiting([rs[|rs| - 1]], true)]
  }

  function AnswerTo(outcome: Outcome, t: Task): Answer {
    if outcome.Failed? then Erred(outcome.error)
    else if t in outcome.taskErrors then Erred(outcome.taskErrors[t])
    else Got(if t in outcome.results then Some(outcome.results[t]) else None)
  }

  function RepliesTo(rs: seq<Request>, outcome: Outcome): seq<Reply> {
    seq(|rs|, k requires 0 <= k < |rs| => Reply(rs[k], AnswerTo(outcome, rs[k].task)))
  }

  function DoSubmit(cfg: Config, s: State, task: Task): State {
    var r := Request(|s.submitted|, task);
    var l := SubmitLocked(s.pending, s.scheduled, cfg.maxBatchSize, r);
    s.(submitted := s.submitted + [r], pending := l.pending, scheduled := l.scheduled,
       timers := if l.startTimer then s.timers + 1 else s.timers, jobs := s.jobs + FlushJobs(l.toFlush))
  }

  function DoTimer(s: State): State
    requires s.timers > 0
  {
    s.(timers := s.timers - 1, pending := [], scheduled := false, jobs := s.jobs + FlushJobs(s.pending))
  }

  function DoBegin(s: State, j: nat): State
    requires j < |s.jobs| && s.jobs[j].Waiting?
  {
    var x := s.jobs[j];
    s.(jobs := s.jobs[j := Ingesting(Firsts(x.requests), Deferred(x.requests), x.retry)],
       ingested := s.ingested + Firsts(x.requests))
  }

  function DoFinish(s: State, j: nat, outcome: Outcome): State
    requires j < |s.jobs| && s.jobs[j].Ingesting?
  {
    var x, rest := s.jobs[j], s.jobs[j := Over];
    if outcome.Failed? && |x.batch| > 1 then
      s.(jobs := rest + RetryJobs(x.batch) + FlushJobs(x.deferred))
    else
      s.(jobs := rest + FlushJobs(x.deferred), replies := s.replies + RepliesTo(x.batch, outcome))
  }

  ghost function Do(cfg: Config, s: State, m: Move): State
    requires Enabled(cfg, s, m)
  {
    match m
    case Submit(task) => DoSubmit(cfg, s, task)
    case TimerFires => DoTimer(s)
    case Begin(j) => DoBegin(s, j)
    case Finish(j, outcome) => DoFinish(s, j, outcome)
  }

  ghost predicate Steps(cfg: Config, s: State, m: Move, s': State) { Enabled(cfg, s, m) && s' == Do(cfg, s, m) }
  ghost predicate Next(cfg: Config, s: State, s': State) { exists m: Move :: Steps(cfg, s, m, s') }

  ghost predicate Behaviour(cfg: Config, trace: seq<State>) {
    && |trace| > 0
    && trace[0] == Init
    && forall i | 0 <= i < |trace| - 1 :: NextAt(cfg, trace, i)
  }

  ghost predicate NextAt(cfg: Config, trace: seq<State>, i: int)
    requires 0 <= i < |trace| - 1
  {
    Next(cfg, trace[i], trace[i + 1])
  }

  lemma StepFrom(cfg: Config, trace: seq<State>, n: nat, next: nat) returns (m: Move)
    requires Behaviour(cfg, trace) && next == n + 1 && next < |trace|
    ensures Steps(cfg, trace[n], m, trace[next])
  {
    assert NextAt(cfg, trace, n);
    m :| Steps(cfg, trace[n], m, trace[next]);
  }

  // ---------------------------------------------------------------- what holds throughout

  /** How many times job `x` holds request `r`. */
  function HoldsIn(r: Request): Job -> int {
    (x: Job) => match x
      case Waiting(rs, _) => Count(rs, r)
      case Ingesting(batch, deferred, _) => Count(batch, r) + Count(deferred, r)
      case Over => 0
  }

  /** How many ingests job `x` accounts for on behalf of request `r`. */
  function TriedIn(r: Request): Job -> int {
    (x: Job) => match x
      case Waiting(rs, retry) => if retry then Count(rs, r) else 0
      case Ingesting(batch, deferred, retry) => if retry then 2 * Count(batch, r) else Count(batch, r)
      case Over => 0
  }

  function IsTo(r: Request): Reply -> int { (x: Reply) => if x.request == r then 1 else 0 }

  ghost predicate Held(s: State, r: Request) {
    Count(s.submitted, r) == Count(s.pending, r) + Sum(s.jobs, HoldsIn(r)) + Sum(s.replies, IsTo(r))
  }

  ghost predicate Tried(s: State, r: Request) {
    var answers, tries := Sum(s.replies, IsTo(r)), Sum(s.jobs, TriedIn(r));
    tries + answers <= Count(s.ingested, r) <= tries + 2 * answers
  }

  ghost predicate JobOk(x: Job) {
    match x
    case Waiting(rs, retry) => rs != [] && (retry ==> |rs| == 1)
    case Ingesting(batch, deferred, retry) =>
      batch != [] && OnePerTask(batch) && (retry ==> |batch| == 1 && deferred == [])
    case Over => true
  }

  ghost predicate TimerOk(s: State) {
    (s.pending != [] ==> s.scheduled) && (s.scheduled ==> s.timers >= 1)
  }

  ghost predicate Shapes(cfg: Config, s: State) {
    && TimerOk(s)
    && (s.pending != [] ==> |s.pending| < cfg.maxBatchSize)
    && Sum(s.jobs, IsIngesting) <= cfg.maxConcurrentFlushes
    && Numbered(s.submitted)
    && (forall j | 0 <= j < |s.jobs| :: JobOk(s.jobs[j]))
  }

  ghost predicate Inv(cfg: Config, s: State) {
    && Shapes(cfg, s)
    && (forall r: Request :: Held(s, r))
    && (forall r: Request :: Tried(s, r))
  }

  // ---------------------------------------------------------------- sums over the jobs a step adds

  lemma {:induction false} SumConcat<T>(a: seq<T>, b: seq<T>, f: T -> int)
    ensures Sum(a + b, f) == Sum(a, f) + Sum(b, f)
  {
    if b == [] {
      assert a + b == a;
    } else {
      var n := |b| - 1;
      SumConcat(a, b[..n], f);
      assert (a + b)[..|a + b| - 1] == a + b[..n];
    }
  }

  lemma FlushJobsHold(rs: seq<Request>, r: Request)
    ensures Sum(FlushJobs(rs), HoldsIn(r)) == Count(rs, r)
    ensures Sum(FlushJobs(rs), TriedIn(r)) == 0
    ensures Sum(FlushJobs(rs), IsIngesting) == 0
  {
    if rs != [] {
      var x := Waiting(rs, false);
      SumAppend([], x, HoldsIn(r));
      SumAppend([], x, TriedIn(r));
      SumAppend([], x, IsIngesting);
      assert [] + [x] == FlushJobs(rs);
    }
  }

  lemma {:induction false} RetryJobsHold(rs: seq<Request>, r: Request)
    ensures Sum(RetryJobs(rs), HoldsIn(r)) == Count(rs, r)
    ensures Sum(RetryJobs(rs), TriedIn(r)) == Count(rs, r)
    ensures Sum(RetryJobs(rs), IsIngesting) == 0
  {
    if rs != [] {
      var n := |rs| - 1;
      var jobs, x := RetryJobs(rs[..n]), Waiting([rs[n]], true);
      RetryJobsHold(rs[..n], r);
      SumAppend(jobs, x, HoldsIn(r));
      SumAppend(jobs, x, TriedIn(r));
      SumAppend(jobs, x, IsIngesting);
      CountAppend([], rs[n], r);
      assert [] + [rs[n]] == [rs[n]];
    }
  }

  lemma {:induction false} RepliesCount(rs: seq<Request>, outcome: Outcome, r: Request)
    ensures Sum(RepliesTo(rs, outcome), IsTo(r)) == Count(rs, r)
  {
    if rs != [] {
      var n := |rs| - 1;
      RepliesCount(rs[..n], outcome, r);
      assert RepliesTo(rs, outcome)[..n] == RepliesTo(rs[..n], outcome);
    }
  }

  // ---------------------------------------------------------------- one step

  lemma {:induction false} SubmitHolds(cfg: Config, s: State, task: Task, r: Request)
    requires Held(s, r)
    ensures Held(DoSubmit(cfg, s, task), r)
  {
    var q := Request(|s.submitted|, task);
    var l := SubmitLocked(s.pending, s.scheduled, cfg.maxBatchSize, q);
    CountAppend(s.submitted, q, r);
    CountAppend(s.pending, q, r);
    SumConcat(s.jobs, FlushJobs(l.toFlush), HoldsIn(r));
    FlushJobsHold(l.toFlush, r);
  }

  lemma {:induction false} SubmitTries(cfg: Config, s: State, task: Task, r: Request)
    requires Tried(s, r)
    ensures Tried(DoSubmit(cfg, s, task), r)
  {
    var q := Request(|s.submitted|, task);
    var l := SubmitLocked(s.pending, s.scheduled, cfg.maxBatchSize, q);
    SumConcat(s.jobs, FlushJobs(l.toFlush), TriedIn(r));
    FlushJobsHold(l.toFlush, r);
  }

  lemma SubmitCounts(cfg: Config, s: State, task: Task, r: Request)
    requires Held(s, r) && Tried(s, r)
    ensures Held(DoSubmit(cfg, s, task), r) && Tried(DoSubmit(cfg, s, task), r)
  {
    SubmitHolds(cfg, s, task, r);
    SubmitTries(cfg, s, task, r);
  }

  lemma TimerCounts(s: State, r: Request)
    requires s.timers > 0 && Held(s, r) && Tried(s, r)
    ensures Held(DoTimer(s), r) && Tried(DoTimer(s), r)
  {
    SumConcat(s.jobs, FlushJobs(s.pending), HoldsIn(r));
    SumConcat(s.jobs, FlushJobs(s.pending), TriedIn(r));
    FlushJobsHold(s.pending, r);
  }

  lemma SingleIsBatched(rs: seq<Request>)
    requires |rs| == 1
    ensures Firsts(rs) == rs && Deferred(rs) == []
  {
    assert Firsts(rs[..0]) == [];
  }

  lemma BeginCounts(s: State, j: nat, r: Request)
    requires j < |s.jobs| && s.jobs[j].Waiting? && JobOk(s.jobs[j]) && Held(s, r) && Tried(s, r)
    ensures Held(DoBegin(s, j), r) && Tried(DoBegin(s, j), r)
  {
    var x := s.jobs[j];
    var y := Ingesting(Firsts(x.requests), Deferred(x.requests), x.retry);
    PartitionConserves(x.requests, r);
    if x.retry {
      SingleIsBatched(x.requests);
    }
    SumUpdate(s.jobs, j, y, HoldsIn(r));
    SumUpdate(s.jobs, j, y, TriedIn(r));
    SumConcat(s.ingested, Firsts(x.requests), Is(r));
  }

  lemma FinishSums(s: State, j: nat, more: seq<Job>, r: Request)
    requires j < |s.jobs|
    ensures var jobs := s.jobs[j := Over] + more;
      && Sum(jobs, HoldsIn(r)) == Sum(s.jobs, HoldsIn(r)) - HoldsIn(r)(s.jobs[j]) + Sum(more, HoldsIn(r))
      && Sum(jobs, TriedIn(r)) == Sum(s.jobs, TriedIn(r)) - TriedIn(r)(s.jobs[j]) + Sum(more, TriedIn(r))
      && Sum(jobs, IsIngesting) == Sum(s.jobs, IsIngesting) - IsIngesting(s.jobs[j]) + Sum(more, IsIngesting)
  {
    var rest := s.jobs[j := Over];
    SumUpdate(s.jobs, j, Over, HoldsIn(r));
    SumUpdate(s.jobs, j, Over, TriedIn(r));
    SumUpdate(s.jobs, j, Over, IsIngesting);
    SumConcat(rest, more, HoldsIn(r));
    SumConcat(rest, more, TriedIn(r));
    SumConcat(rest, more, IsIngesting);
  }

  function SplitJobs(x: Job): seq<Job>
    requires x.Ingesting?
  {
    RetryJobs(x.batch) + FlushJobs(x.deferred)
  }

  lemma SplitJobsHold(x: Job, r: Request)
    requires x.Ingesting?
    ensures Sum(SplitJobs(x), HoldsIn(r)) == HoldsIn(r)(x)
    ensures Sum(SplitJobs(x), TriedIn(r)) == Count(x.batch, r)
    ensures Sum(SplitJobs(x), IsIngesting) == 0
  {
    var a, b := RetryJobs(x.batch), FlushJobs(x.deferred);
    RetryJobsHold(x.batch, r);
    FlushJobsHold(x.deferred, r);
    SumConcat(a, b, HoldsIn(r));
    SumConcat(a, b, TriedIn(r));
    SumConcat(a, b, IsIngesting);
  }

  lemma SplitCounts(s: State, j: nat, r: Request)
    requires j < |s.jobs| && s.jobs[j].Ingesting? && JobOk(s.jobs[j]) && |s.jobs[j].batch| > 1
    requires Held(s, r) && Tried(s, r)
    ensures var s' := s.(jobs := s.jobs[j := Over] + SplitJobs(s.jobs[j])); Held(s', r) && Tried(s', r)
  {
    FinishSums(s, j, SplitJobs(s.jobs[j]), r);
    SplitJobsHold(s.jobs[j], r);
  }

  lemma AnswerCounts(s: State, j: nat, outcome: Outcome, r: Request)
    requires j < |s.jobs| && s.jobs[j].Ingesting? && JobOk(s.jobs[j])
    requires Held(s, r) && Tried(s, r)
    ensures var x := s.jobs[j];
            var s' := s.(jobs := s.jobs[j := Over] + FlushJobs(x.deferred),
                         replies := s.replies + RepliesTo(x.batch, outcome));
            Held(s', r) && Tried(s', r)
  {
    var x := s.jobs[j];
    FinishSums(s, j, FlushJobs(x.deferred), r);
    FlushJobsHold(x.deferred, r);
    RepliesCount(x.batch, outcome, r);
    SumConcat(s.replies, RepliesTo(x.batch, outcome), IsTo(r));
    CountNonNegative(x.batch, r);
  }

  lemma FinishCounts(s: State, j: nat, outcome: Outcome, r: Request)
    requires j < |s.jobs| && s.jobs[j].Ingesting? && JobOk(s.jobs[j]) && Held(s, r) && Tried(s, r)
    ensures Held(DoFinish(s, j, outcome), r) && Tried(DoFinish(s, j, outcome), r)
  {
    var x := s.jobs[j];
    if outcome.Failed? && |x.batch| > 1 {
      SplitCounts(s, j, r);
      assert s.jobs[j := Over] + SplitJobs(x) == s.jobs[j := Over] + RetryJobs(x.batch) + FlushJobs(x.deferred);
    } else {
      AnswerCounts(s, j, outcome, r);
    }
  }

  lemma StepCounts(cfg: Config, s: State, m: Move, s': State, r: Request)
    requires Inv(cfg, s) && Steps(cfg, s, m, s')
    ensures Held(s', r) && Tried(s', r)
  {
    assert Held(s, r) && Tried(s, r);
    match m
    case Submit(task) => SubmitCounts(cfg, s, task, r);
    case TimerFires => TimerCounts(s, r);
    case Begin(j) => BeginCounts(s, j, r);
    case Finish(j, outcome) => FinishCounts(s, j, outcome, r);
  }

  // ---------------------------------------------------------------- shapes under one step

  lemma {:induction false} RetryJobsOk(rs: seq<Request>)
    ensures forall k | 0 <= k < |RetryJobs(rs)| :: JobOk(RetryJobs(rs)[k])
  {
    if rs != [] {
      RetryJobsOk(rs[..|rs| - 1]);
    }
  }

  lemma AddedJobs(cfg: Config, s: State, rs: seq<Request>)
    requires Shapes(cfg, s)
    ensures var jobs := s.jobs + FlushJobs(rs);
            Sum(jobs, IsIngesting) == Sum(s.jobs, IsIngesting) && forall j | 0 <= j < |jobs| :: JobOk(jobs[j])
  {
    SumConcat(s.jobs, FlushJobs(rs), IsIngesting);
    FlushJobsHold(rs, Request(0, 0));
  }

  ghost predicate Numbered(rs: seq<Request>) { forall i | 0 <= i < |rs| :: rs[i].id == i }

  lemma NumberedNext(rs: seq<Request>, task: Task)
    requires Numbered(rs)
    ensures Numbered(rs + [Request(|rs|, task)])
  {}

  lemma {:induction false} SubmitShapes(cfg: Config, s: State, task: Task)
    requires Shapes(cfg, s)
    ensures Shapes(cfg, DoSubmit(cfg, s, task))
  {
    var l := SubmitLocked(s.pending, s.scheduled, cfg.maxBatchSize, Request(|s.submitted|, task));
    AddedJobs(cfg, s, l.toFlush);
    NumberedNext(s.submitted, task);
  }

  lemma BegunIsOk(x: Job)
    requires x.Waiting? && JobOk(x)
    ensures JobOk(Ingesting(Firsts(x.requests), Deferred(x.requests), x.retry))
  {
    FirstsAreOnePerTask(x.requests);
    PartitionSizes(x.requests);
    if x.retry {
      SingleIsBatched(x.requests);
    }
  }

  lemma {:induction false} BeginShapes(cfg: Config, s: State, j: nat)
    requires Shapes(cfg, s) && Enabled(cfg, s, Begin(j))
    ensures Shapes(cfg, DoBegin(s, j))
  {
    var x := s.jobs[j];
    var y := Ingesting(Firsts(x.requests), Deferred(x.requests), x.retry);
    BegunIsOk(x);
    SumUpdate(s.jobs, j, y, IsIngesting);
    assert forall k | 0 <= k < |s.jobs| :: JobOk(s.jobs[k]);
  }

  lemma JobsOkConcat(a: seq<Job>, b: seq<Job>)
    requires (forall j | 0 <= j < |a| :: JobOk(a[j])) && (forall j | 0 <= j < |b| :: JobOk(b[j]))
    ensures forall j | 0 <= j < |a + b| :: JobOk((a + b)[j])
  {}

  lemma JobsAfter(jobs: seq<Job>, j: nat, more: seq<Job>)
    requires j < |jobs| && (forall k | 0 <= k < |jobs| :: JobOk(jobs[k]))
    requires forall k | 0 <= k < |more| :: JobOk(more[k])
    ensures var after := jobs[j := Over] + more; forall k | 0 <= k < |after| :: JobOk(after[k])
  {
    JobsOkConcat(jobs[j := Over], more);
  }

  lemma SplitShapes(cfg: Config, s: State, j: nat)
    requires Shapes(cfg, s) && j < |s.jobs| && s.jobs[j].Ingesting?
    ensures Shapes(cfg, s.(jobs := s.jobs[j := Over] + SplitJobs(s.jobs[j])))
  {
    var x, r := s.jobs[j], Request(0, 0);
    RetryJobsOk(x.batch);
    JobsOkConcat(RetryJobs(x.batch), FlushJobs(x.deferred));
    JobsAfter(s.jobs, j, SplitJobs(x));
    FinishSums(s, j, SplitJobs(x), r);
    SplitJobsHold(x, r);
  }

  lemma AnswerShapes(cfg: Config, s: State, j: nat, outcome: Outcome)
    requires Shapes(cfg, s) && j < |s.jobs| && s.jobs[j].Ingesting?
    ensures var x := s.jobs[j];
            Shapes(cfg, s.(jobs := s.jobs[j := Over] + FlushJobs(x.deferred),
                           replies := s.replies + RepliesTo(x.batch, outcome)))
  {
    var x, r := s.jobs[j], Request(0, 0);
    JobsAfter(s.jobs, j, FlushJobs(x.deferred));
    FinishSums(s, j, FlushJobs(x.deferred), r);
    FlushJobsHold(x.deferred, r);
  }

  lemma FinishShapes(cfg: Config, s: State, j: nat, outcome: Outcome)
    requires Shapes(cfg, s) && Enabled(cfg, s, Finish(j, outcome))
    ensures Shapes(cfg, DoFinish(s, j, outcome))
  {
    var x := s.jobs[j];
    if outcome.Failed? && |x.batch| > 1 {
      SplitShapes(cfg, s, j);
      assert s.jobs[j := Over] + SplitJobs(x) == s.jobs[j := Over] + RetryJobs(x.batch) + FlushJobs(x.deferred);
    } else {
      AnswerShapes(cfg, s, j, outcome);
    }
  }

  lemma StepKeeps(cfg: Config, s: State, m: Move, s': State)
    requires Inv(cfg, s) && Steps(cfg, s, m, s')
    ensures Inv(cfg, s')
  {
    forall r: Request ensures Held(s', r) && Tried(s', r) {
      StepCounts(cfg, s, m, s', r);
    }
    match m
    case Submit(task) => SubmitShapes(cfg, s, task);
    case TimerFires => AddedJobs(cfg, s, s.pending);
    case Begin(j) => BeginShapes(cfg, s, j);
    case Finish(j, outcome) => FinishShapes(cfg, s, j, outcome);
  }

  // ---------------------------------------------------------------- every interleaving

  lemma {:induction false} BehaviourKeepsInv(cfg: Config, trace: seq<State>, n: nat)
    requires Behaviour(cfg, trace) && n < |trace|
    ensures Inv(cfg, trace[n])
  {
    if n > 0 {
      BehaviourKeepsInv(cfg, trace, n - 1);
      var m := StepFrom(cfg, trace, n - 1, n);
      StepKeeps(cfg, trace[n - 1], m, trace[n]);
    }
  }

  lemma {:induction false} CountDistinct(rs: seq<Request>, r: Request)
    requires forall i | 0 <= i < |rs| :: rs[i].id == i
    ensures Count(rs, r) == if r in rs then 1 else 0
  {
    if rs != [] {
      var n := |rs| - 1;
      CountDistinct(rs[..n], r);
      assert rs == rs[..n] + [rs[n]];
    }
  }

  /** Every submitted request is in exactly one place: waiting, in one flush, or answered once. */
  lemma AnsweredAtMostOnce(cfg: Config, trace: seq<State>, r: Request)
    requires Behaviour(cfg, trace)
    ensures var s := trace[|trace| - 1];
      Count(s.pending, r) + Sum(s.jobs, HoldsIn(r)) + Sum(s.replies, IsTo(r)) == if r in s.submitted then 1 else 0
  {
    BehaviourKeepsInv(cfg, trace, |trace| - 1);
    assert Held(trace[|trace| - 1], r);
    CountDistinct(trace[|trace| - 1].submitted, r);
  }

  lemma {:induction false} HoldsNonNegative(jobs: seq<Job>, r: Request)
    ensures 0 <= Sum(jobs, HoldsIn(r)) && 0 <= Sum(jobs, TriedIn(r)) <= 2 * Sum(jobs, HoldsIn(r))
  {
    if jobs != [] {
      var x := jobs[|jobs| - 1];
      HoldsNonNegative(jobs[..|jobs| - 1], r);
      match x
      case Waiting(rs, _) => CountNonNegative(rs, r);
      case Ingesting(batch, deferred, _) => CountNonNegative(batch, r); CountNonNegative(deferred, r);
      case Over =>
    }
  }

  lemma RepliesNonNegative(rs: seq<Reply>, r: Request)
    ensures Sum(rs, IsTo(r)) >= 0
  {
    if rs != [] {
      SumTerm(rs, 0, IsTo(r));
    }
  }

  /** No request is ingested more than twice, and none is answered without having been ingested. */
  lemma IngestedAtMostTwice(cfg: Config, trace: seq<State>, r: Request)
    requires Behaviour(cfg, trace)
    ensures var s := trace[|trace| - 1]; Sum(s.replies, IsTo(r)) <= Count(s.ingested, r) <= 2
  {
    var s := trace[|trace| - 1];
    BehaviourKeepsInv(cfg, trace, |trace| - 1);
    assert Tried(s, r);
    AnsweredAtMostOnce(cfg, trace, r);
    HoldsNonNegative(s.jobs, r);
    CountNonNegative(s.pending, r);
    RepliesNonNegative(s.replies, r);
  }

  /** A waiting request has a timer that will take it, and every running batch has one request per task. */
  lemma NothingWaitsUnwatched(cfg: Config, trace: seq<State>)
    requires Behaviour(cfg, trace)
    ensures var s := trace[|trace| - 1];
      && (s.pending != [] ==> s.scheduled && s.timers >= 1 && |s.pending| < cfg.maxBatchSize)
      && Sum(s.jobs, IsIngesting) <= cfg.maxConcurrentFlushes
      && (forall j | 0 <= j < |s.jobs| && s.jobs[j].Ingesting? :: OnePerTask(s.jobs[j].batch))
      && (forall x | x in s.replies :: exists i, j, outcome :: SentBy(cfg, trace, i, j, outcome, x))
  {
    var s := trace[|trace| - 1];
    BehaviourKeepsInv(cfg, trace, |trace| - 1);
    assert forall j | 0 <= j < |s.jobs| && s.jobs[j].Ingesting? :: JobOk(s.jobs[j]);
    forall x | x in s.replies ensures exists i, j, outcome :: SentBy(cfg, trace, i, j, outcome, x) {
      var i, j, outcome := EveryAnswerIsDue(cfg, trace, |trace| - 1, x);
    }
  }

  /** A submission flushes exactly when it fills the batch, and starts a timer exactly when none is scheduled. */
  lemma FlushesWhenFullExactly(cfg: Config, s: State, task: Task, s': State)
    requires Steps(cfg, s, Submit(task), s')
    ensures var all := s.pending + [Request(|s.submitted|, task)];
      && s'.submitted == s.submitted + [Request(|s.submitted|, task)]
      && (if |all| >= cfg.maxBatchSize then
            s'.pending == [] && !s'.scheduled && s'.jobs == s.jobs + [Waiting(all, false)] && s'.timers == s.timers
          else
            s'.pending == all && s'.scheduled && s'.jobs == s.jobs && (s'.timers == s.timers <==> s.scheduled))
  {}

  /** Timers that outlive their batch are few: each was overtaken by a full batch. */
  ghost predicate TimersFew(cfg: Config, s: State) {
    (s.timers - (if s.scheduled then 1 else 0)) * cfg.maxBatchSize <= |s.submitted| - |s.pending|
  }

  lemma StepKeepsTimersFew(cfg: Config, s: State, m: Move, s': State)
    requires cfg.maxBatchSize > 0 && TimersFew(cfg, s) && Steps(cfg, s, m, s')
    ensures TimersFew(cfg, s')
  {}

  lemma {:induction false} FewTimers(cfg: Config, trace: seq<State>, n: nat)
    requires cfg.maxBatchSize > 0 && Behaviour(cfg, trace) && n < |trace|
    ensures TimersFew(cfg, trace[n])
  {
    if n > 0 {
      FewTimers(cfg, trace, n - 1);
      var m := StepFrom(cfg, trace, n - 1, n);
      StepKeepsTimersFew(cfg, trace[n - 1], m, trace[n]);
    }
  }

  // ---------------------------------------------------------------- what a caller is told

  /** What the caller of a request for task `t` is due when an append with its request reports `outcome`. */
  ghost predicate Due(outcome: Outcome, t: Task, a: Answer) {
    match a
    case Erred(e) => outcome == Failed(e) || (outcome.Done? && t in outcome.taskErrors && outcome.taskErrors[t] == e)
    case Got(v) =>
      && outcome.Done? && t !in outcome.taskErrors
      && (v.Some? <==> t in outcome.results) && (v.Some? ==> v.value == outcome.results[t])
  }

  /** A batch that fails as a whole is split, and nobody is answered, exactly when it holds several requests. */
  ghost predicate Splits(x: Job, outcome: Outcome)
    requires x.Ingesting?
  {
    outcome.Failed? && |x.batch| > 1
  }

  ghost predicate Finishes(cfg: Config, s: State, j: nat, outcome: Outcome, s': State) {
    Steps(cfg, s, Finish(j, outcome), s')
  }

  /** A finished append answers each request of its batch with what it is due, or splits and answers none. */
  lemma FinishTells(cfg: Config, s: State, j: nat, outcome: Outcome, s': State)
    requires Finishes(cfg, s, j, outcome, s')
    ensures var x, n := s.jobs[j], |s.replies|;
      && s.replies <= s'.replies
      && |s'.replies| == n + (if Splits(x, outcome) then 0 else |x.batch|)
      && (!Splits(x, outcome) ==> forall k | 0 <= k < |x.batch| ::
            s'.replies[n + k].request == x.batch[k] && Due(outcome, x.batch[k].task, s'.replies[n + k].answer))
  {}

  lemma OnlyFinishTells(cfg: Config, s: State, m: Move, s': State)
    requires Steps(cfg, s, m, s')
    ensures s.replies <= s'.replies && (!m.Finish? ==> s'.replies == s.replies)
  {}

  /** The reply was sent in step `i`, which finished job `j`, whose batch held the request. */
  ghost predicate SentBy(cfg: Config, trace: seq<State>, i: nat, j: nat, outcome: Outcome, x: Reply) {
    && i < |trace| - 1
    && Finishes(cfg, trace[i], j, outcome, trace[i + 1])
    && x.request in trace[i].jobs[j].batch
    && (outcome.Failed? ==> trace[i].jobs[j].batch == [x.request])
    && Due(outcome, x.request.task, x.answer)
  }

  /** A reply that the step adds is sent by it. */
  lemma NewReplyIsSent(cfg: Config, s: State, m: Move, s': State, x: Reply)
    requires Steps(cfg, s, m, s') && x in s'.replies && x !in s.replies
    ensures m.Finish? && x.request in s.jobs[m.j].batch && Due(m.outcome, x.request.task, x.answer)
    ensures m.outcome.Failed? ==> s.jobs[m.j].batch == [x.request]
  {
    OnlyFinishTells(cfg, s, m, s');
    FinishTells(cfg, s, m.j, m.outcome, s');
  }

  /**
   In every run, every answer comes from a finished append of a batch that held the request, and is what
   that append reported for it: the error of the whole batch only if the request was alone in it.
   */
  lemma {:induction false} EveryAnswerIsDue(cfg: Config, trace: seq<State>, n: nat, x: Reply)
      returns (i: nat, j: nat, outcome: Outcome)
    requires Behaviour(cfg, trace) && n < |trace| && x in trace[n].replies
    ensures i < n && SentBy(cfg, trace, i, j, outcome, x)
  {
    var m := StepFrom(cfg, trace, n - 1, n);
    if x in trace[n - 1].replies {
      i, j, outcome := EveryAnswerIsDue(cfg, trace, n - 1, x);
    } else {
      NewReplyIsSent(cfg, trace[n - 1], m, trace[n], x);
      i, j, outcome := n - 1, m.j, m.outcome;
    }
  }

  lemma {:induction false} RepliesStay(cfg: Config, trace: seq<State>, i: nat, n: nat)
    requires Behaviour(cfg, trace) && i <= n < |trace|
    ensures trace[i].replies <= trace[n].replies
    decreases n
  {
    if i < n {
      RepliesStay(cfg, trace, i, n - 1);
      var m := StepFrom(cfg, trace, n - 1, n);
      OnlyFinishTells(cfg, trace[n - 1], m, trace[n]);
    }
  }

  /** Conversely, an append that finishes without a split has told every caller in its batch what it is due. */
  lemma FinishedIsTold(cfg: Config, trace: seq<State>, i: nat, j: nat, outcome: Outcome, r: Request)
    requires Behaviour(cfg, trace) && i < |trace| - 1 && Finishes(cfg, trace[i], j, outcome, trace[i + 1])
    requires r in trace[i].jobs[j].batch && !Splits(trace[i].jobs[j], outcome)
    ensures exists a :: Reply(r, a) in trace[|trace| - 1].replies && Due(outcome, r.task, a)
  {
    var next := i + 1;
    FinishTells(cfg, trace[i], j, outcome, trace[next]);
    RepliesStay(cfg, trace, next, |trace| - 1);
    var k :| 0 <= k < |trace[i].jobs[j].batch| && trace[i].jobs[j].batch[k] == r;
    var x := trace[next].replies[|trace[i].replies| + k];
    assert x == Reply(r, x.answer) && x in trace[|trace| - 1].replies;
  }

  // ---------------------------------------------------------------- progress

  function JobWeight(x: Job): int {
    match x
    case Waiting(rs, retry) => if retry then 2 else 4 * |rs|
    case Ingesting(batch, deferred, retry) => if retry then 1 else 2 * |batch| + 1 + 4 * |deferred|
    case Over => 0
  }

  /** An upper bound on how many more steps the requests already submitted can take. */
  function Weight(s: State): int { 4 * |s.pending| + s.timers + Sum(s.jobs, JobWeight) }

  lemma {:induction false} RetryWeight(rs: seq<Request>)
    ensures Sum(RetryJobs(rs), JobWeight) == 2 * |rs|
  {
    if rs != [] {
      RetryWeight(rs[..|rs| - 1]);
      SumAppend(RetryJobs(rs[..|rs| - 1]), Waiting([rs[|rs| - 1]], true), JobWeight);
    }
  }

  lemma FlushWeight(rs: seq<Request>)
    ensures Sum(FlushJobs(rs), JobWeight) == 4 * |rs|
  {
    if rs != [] {
      SumAppend([], Waiting(rs, false), JobWeight);
      assert [] + [Waiting(rs, false)] == FlushJobs(rs);
    }
  }

  lemma FinishWeighsLess(s: State, j: nat, outcome: Outcome)
    requires j < |s.jobs| && s.jobs[j].Ingesting? && JobOk(s.jobs[j])
    ensures Weight(DoFinish(s, j, outcome)) < Weight(s)
  {
    var x, rest := s.jobs[j], s.jobs[j := Over];
    SumUpdate(s.jobs, j, Over, JobWeight);
    FlushWeight(x.deferred);
    if outcome.Failed? && |x.batch| > 1 {
      RetryWeight(x.batch);
      SumConcat(rest, RetryJobs(x.batch), JobWeight);
      SumConcat(rest + RetryJobs(x.batch), FlushJobs(x.deferred), JobWeight);
    } else {
      SumConcat(rest, FlushJobs(x.deferred), JobWeight);
    }
  }

  lemma BeginWeighsLess(s: State, j: nat)
    requires j < |s.jobs| && s.jobs[j].Waiting? && JobOk(s.jobs[j])
    ensures Weight(DoBegin(s, j)) < Weight(s)
  {
    var rs := s.jobs[j].requests;
    PartitionSizes(rs);
    SumUpdate(s.jobs, j, Ingesting(Firsts(rs), Deferred(rs), s.jobs[j].retry), JobWeight);
  }

  /** Deferral and retry cannot go on for ever: every step that is not a submission loses weight. */
  lemma EveryStepWeighsLess(cfg: Config, s: State, m: Move, s': State)
    requires Inv(cfg, s) && Steps(cfg, s, m, s') && !m.Submit?
    ensures Weight(s') < Weight(s)
  {
    match m
    case TimerFires =>
      SumConcat(s.jobs, FlushJobs(s.pending), JobWeight);
      FlushWeight(s.pending);
    case Begin(j) => BeginWeighsLess(s, j);
    case Finish(j, outcome) => FinishWeighsLess(s, j, outcome);
  }

  lemma {:induction false} WeightNonNegative(jobs: seq<Job>)
    ensures Sum(jobs, JobWeight) >= 0
  {
    if jobs != [] {
      WeightNonNegative(jobs[..|jobs| - 1]);
    }
  }

  lemma {:induction false} FindIngesting(jobs: seq<Job>) returns (j: nat)
    requires Sum(jobs, IsIngesting) > 0
    ensures j < |jobs| && jobs[j].Ingesting?
  {
    j := |jobs| - 1;
    if !jobs[j].Ingesting? {
      j := FindIngesting(jobs[..j]);
    }
  }

  lemma {:induction false} NothingHeld(jobs: seq<Job>, r: Request)
    requires forall x | x in jobs :: x.Over?
    ensures Sum(jobs, HoldsIn(r)) == 0
  {
    SumIsZero(jobs, HoldsIn(r));
  }

  /** A state in which nothing but a submission can happen. */
  ghost predicate Quiet(cfg: Config, s: State) { forall m: Move | Enabled(cfg, s, m) :: m.Submit? }

  lemma QuietMeansAnswered(cfg: Config, s: State, r: Request)
    requires Inv(cfg, s) && Quiet(cfg, s) && cfg.maxConcurrentFlushes > 0 && r in s.submitted
    ensures Sum(s.replies, IsTo(r)) == 1
  {
    assert !Enabled(cfg, s, TimerFires);
    forall x | x in s.jobs ensures x.Over? {
      var j: nat :| j < |s.jobs| && s.jobs[j] == x;
      assert !Enabled(cfg, s, Finish(j, Failed(0)));
      if x.Waiting? {
        assert !Enabled(cfg, s, Begin(j));
        var k := FindIngesting(s.jobs);
        assert Enabled(cfg, s, Finish(k, Failed(0)));
        assert false;
      }
    }
    NothingHeld(s.jobs, r);
    CountDistinct(s.submitted, r);
    assert Held(s, r);
  }

  /** A run on from a reachable state, without further submissions. */
  ghost predicate RunsOn(cfg: Config, run: seq<State>) {
    && |run| > 0
    && forall i | 0 <= i < |run| - 1 :: Continues(cfg, run[i], run[i + 1])
  }

  ghost predicate Continues(cfg: Config, s: State, s': State) { exists m: Move :: Steps(cfg, s, m, s') && !m.Submit? }

  lemma ContinuingKeeps(cfg: Config, s: State, s': State)
    requires Inv(cfg, s) && Continues(cfg, s, s')
    ensures Inv(cfg, s') && s'.submitted == s.submitted && Weight(s') < Weight(s)
  {
    var m: Move :| Steps(cfg, s, m, s') && !m.Submit?;
    StepKeeps(cfg, s, m, s');
    EveryStepWeighsLess(cfg, s, m, s');
  }

  lemma {:induction false} RunKeeps(cfg: Config, run: seq<State>, i: nat)
    requires RunsOn(cfg, run) && Inv(cfg, run[0]) && i < |run|
    ensures Inv(cfg, run[i]) && run[i].submitted == run[0].submitted
    ensures i <= Weight(run[0]) - Weight(run[i])
  {
    if i > 0 {
      RunKeeps(cfg, run, i - 1);
      assert Continues(cfg, run[i - 1], run[i - 1 + 1]);
      ContinuingKeeps(cfg, run[i - 1], run[i]);
    }
  }

  /**
   Once submissions stop, the buffer goes quiet after boundedly many steps, and then every request ever
   submitted has been answered exactly once.
   */
  lemma EveryRequestIsAnswered(cfg: Config, trace: seq<State>, run: seq<State>, r: Request)
    requires Behaviour(cfg, trace) && RunsOn(cfg, run) && run[0] == trace[|trace| - 1]
    requires cfg.maxConcurrentFlushes > 0 && r in run[0].submitted
    ensures |run| - 1 <= Weight(run[0])
    ensures Quiet(cfg, run[|run| - 1]) ==> Sum(run[|run| - 1].replies, IsTo(r)) == 1
  {
    BehaviourKeepsInv(cfg, trace, |trace| - 1);
    RunKeeps(cfg, run, |run| - 1);
    WeightNonNegative(run[|run| - 1].jobs);
    if Quiet(cfg, run[|run| - 1]) {
      QuietMeansAnswered(cfg, run[|run| - 1], r);
    }
  }
}
