/**
 Greedy packing of a list into consecutive chunks: bulk workflow triggers (bounded in bytes and in
 count) and stream wakes (bounded in bytes).  The packing is shown to lose nothing and to use as few
 chunks as any packing under the same limits.
 */
module ChunkPacking {
  import opened Options

  /** A chunk may hold at most `count` items when there is one; it may exceed `bytes` only alone. */
  datatype Limits = Limits(bytes: int, count: Option<nat>)

  const BULK_TRIGGER := Limits(3 * 1024 * 1024, Some(1000))
  const STREAM_WAKES := Limits(4 * 1024, None)

  function Weight<T>(items: seq<T>, size: T -> nat): nat {
    if items == [] then 0 else Weight(items[..|items| - 1], size) + size(items[|items| - 1])
  }

  predicate Fits<T>(chunk: seq<T>, size: T -> nat, lim: Limits) {
    && |chunk| > 0
    && (lim.count.Some? ==> |chunk| <= lim.count.value)
    && (|chunk| == 1 || Weight(chunk, size) <= lim.bytes)
  }

  function Flatten<T>(chunks: seq<seq<T>>): seq<T> {
    if chunks == [] then [] else Flatten(chunks[..|chunks| - 1]) + chunks[|chunks| - 1]
  }

  ghost predicate IsPacking<T>(chunks: seq<seq<T>>, items: seq<T>, size: T -> nat, lim: Limits) {
    && Flatten(chunks) == items
    && forall c | c in chunks :: Fits(c, size, lim)
  }

  /** `n` items can go first, and one more could not join them. */
  ghost predicate IsLongest<T>(items: seq<T>, n: int, size: T -> nat, lim: Limits) {
    && 0 < n <= |items|
    && Fits(items[..n], size, lim)
    && (n < |items| ==> !Fits(items[..n + 1], size, lim))
  }

  /** The chunks cover the first `cut` items, and each was the longest possible when it was cut. */
  ghost predicate IsGreedy<T>(chunks: seq<seq<T>>, items: seq<T>, cut: int, size: T -> nat, lim: Limits) {
    if chunks == [] then cut == 0
    else
      var c := chunks[|chunks| - 1];
      && 0 <= cut - |c| < cut <= |items|
      && c == items[cut - |c|..cut]
      && IsLongest(items[cut - |c|..], |c|, size, lim)
      && IsGreedy(chunks[..|chunks| - 1], items, cut - |c|, size, lim)
  }

  // ---------------------------------------------------------------- greedy is best

  lemma {:induction false} WeightConcat<T>(a: seq<T>, b: seq<T>, size: T -> nat)
    ensures Weight(a + b, size) == Weight(a, size) + Weight(b, size)
  {
    if b == [] {
      assert a + b == a;
    } else {
      var init := b[..|b| - 1];
      assert (a + b)[..|a + b| - 1] == a + init;
      WeightConcat(a, init, size);
    }
  }

  /** Whatever fits also fits after cutting it on either side. */
  lemma PartFits<T>(chunk: seq<T>, lo: int, hi: int, size: T -> nat, lim: Limits)
    requires Fits(chunk, size, lim) && 0 <= lo < hi <= |chunk|
    ensures Fits(chunk[lo..hi], size, lim)
  {
    assert chunk == chunk[..lo] + chunk[lo..hi] + chunk[hi..];
    WeightConcat(chunk[..lo] + chunk[lo..hi], chunk[hi..], size);
    WeightConcat(chunk[..lo], chunk[lo..hi], size);
  }

  lemma LongestIsMaximal<T>(items: seq<T>, n: int, m: int, size: T -> nat, lim: Limits)
    requires IsLongest(items, n, size, lim)
    requires 0 < m <= |items| && Fits(items[..m], size, lim)
    ensures m <= n
  {
    if m > n {
      assert items[..m][0..n + 1] == items[..n + 1];
      PartFits(items[..m], 0, n + 1, size, lim);
    }
  }

  /** A chunk that starts no later than a longest cut ends no later either. */
  lemma CutIsAhead<T>(items: seq<T>, before: nat, reached: nat, from: nat, cut: nat, size: T -> nat, lim: Limits)
    requires before <= from <= cut && before <= reached <= |items| && from <= |items|
    requires Fits(items[before..reached], size, lim)
    requires IsLongest(items[from..], cut - from, size, lim)
    ensures reached <= cut
  {
    if from < reached {
      var d := items[before..reached];
      PartFits(d, from - before, |d|, size, lim);
      assert d[from - before..|d|] == items[from..reached] == items[from..][..reached - from];
      LongestIsMaximal(items[from..], cut - from, reached - from, size, lim);
    }
  }

  /** After equally many chunks, greedy has come at least as far as any packing. */
  lemma {:induction false} GreedyStaysAhead<T>(greedy: seq<seq<T>>, items: seq<T>, cut: nat, other: seq<seq<T>>,
                                               reached: nat, size: T -> nat, lim: Limits)
    requires IsGreedy(greedy, items, cut, size, lim)
    requires |other| == |greedy| && reached <= |items|
    requires IsPacking(other, items[..reached], size, lim)
    ensures reached <= cut
    decreases |greedy|
  {
    if greedy != [] {
      var init, d := other[..|other| - 1], other[|other| - 1];
      var before, from := |Flatten(init)|, cut - |greedy[|greedy| - 1]|;
      assert Flatten(init) == items[..reached][..before] == items[..before];
      GreedyStaysAhead(greedy[..|greedy| - 1], items, from, init, before, size, lim);
      assert d == items[..reached][before..] == items[before..reached];
      CutIsAhead(items, before, reached, from, cut, size, lim);
    }
  }

  /** Fewer greedy chunks cover strictly less. */
  lemma {:induction false} GreedyPrefix<T>(greedy: seq<seq<T>>, items: seq<T>, cut: int, n: nat, size: T -> nat,
                                           lim: Limits) returns (less: nat)
    requires IsGreedy(greedy, items, cut, size, lim) && n < |greedy|
    ensures IsGreedy(greedy[..n], items, less, size, lim) && less < cut
    decreases |greedy|
  {
    var init, c := greedy[..|greedy| - 1], greedy[|greedy| - 1];
    less := cut - |c|;
    if n < |init| {
      less := GreedyPrefix(init, items, cut - |c|, n, size, lim);
      assert init[..n] == greedy[..n];
    }
  }

  lemma {:induction false} GreedyIsPacking<T>(greedy: seq<seq<T>>, items: seq<T>, cut: int, size: T -> nat, lim: Limits)
    requires IsGreedy(greedy, items, cut, size, lim) && 0 <= cut <= |items|
    ensures IsPacking(greedy, items[..cut], size, lim)
    decreases |greedy|
  {
    if greedy != [] {
      var init, c := greedy[..|greedy| - 1], greedy[|greedy| - 1];
      GreedyIsPacking(init, items, cut - |c|, size, lim);
      assert items[..cut] == items[..cut - |c|] + c;
      assert items[cut - |c|..][..|c|] == c;
      assert greedy == init + [c];
    }
  }

  /** The greedy chunks are a packing of the input, and no packing of it is smaller. */
  lemma GreedyIsOptimal<T>(greedy: seq<seq<T>>, items: seq<T>, size: T -> nat, lim: Limits)
    requires IsGreedy(greedy, items, |items|, size, lim)
    ensures IsPacking(greedy, items, size, lim)
    ensures forall other :: IsPacking(other, items, size, lim) ==> |greedy| <= |other|
  {
    GreedyIsPacking(greedy, items, |items|, size, lim);
    assert items[..|items|] == items;
    forall other | IsPacking(other, items, size, lim) ensures |greedy| <= |other| {
      if |other| < |greedy| {
        var less := GreedyPrefix(greedy, items, |items|, |other|, size, lim);
        GreedyStaysAhead(greedy[..|other|], items, less, other, |items|, size, lim);
      }
    }
  }

  lemma GreedyExtends<T>(done: seq<seq<T>>, items: seq<T>, cut: nat, c: seq<T>, size: T -> nat, lim: Limits)
    requires IsGreedy(done, items, cut, size, lim) && cut + |c| <= |items|
    requires c == items[cut..cut + |c|] && IsLongest(items[cut..], |c|, size, lim)
    ensures IsGreedy(done + [c], items, cut + |c|, size, lim)
  {
    assert (done + [c])[..|done|] == done;
  }

  // ---------------------------------------------------------------- bulk triggers

  method NextChunkEnd<T>(requests: seq<T>, start: nat, size: T -> nat) returns (end: nat)
    requires start <= |requests|
    ensures start <= end <= |requests|
    ensures start < |requests| ==> IsLongest(requests[start..], end - start, size, BULK_TRIGGER)
  {
    end := start;
    var chunkBytes := 0;
    while end < |requests| && end - start < BULK_TRIGGER.count.value
      invariant start <= end <= |requests|
      invariant chunkBytes == Weight(requests[start..end], size)
      invariant start < end ==> Fits(requests[start..end], size, BULK_TRIGGER)
    {
      var n := size(requests[end]);
      assert requests[start..end + 1][..end - start] == requests[start..end];
      if end > start && chunkBytes + n > BULK_TRIGGER.bytes {
        break;
      }
      chunkBytes := chunkBytes + n;
      end := end + 1;
    }
    if start < end {
      assert requests[start..][..end - start] == requests[start..end];
      if end < |requests| {
        assert requests[start..][..end + 1 - start] == requests[start..end + 1];
      }
    }
  }

  /** The engine's answer to one bulk trigger call. */
  datatype Reply =
    | Triggered(runIds: seq<string>)
    | Collided(successful: seq<string>, collisions: seq<string>)
    | Failed(message: string)

  datatype TriggerError = Plain(message: string) | Collisions(successful: seq<string>, collisions: seq<string>)

  /** What is kept of the replies so far. */
  datatype Tally = Tally(runIds: seq<string>, successful: seq<string>, collisions: seq<string>, errs: seq<TriggerError>)

  function Count(t: Tally, r: Reply): Tally {
    match r
    case Triggered(ids) => t.(runIds := t.runIds + ids)
    case Collided(ids, cs) => t.(successful := t.successful + ids, collisions := t.collisions + cs)
    case Failed(m) => t.(errs := t.errs + [Plain(m)])
  }

  /** The first `n` replies, in call order. */
  function CountAll(n: nat, reply: nat -> Reply): Tally {
    if n == 0 then Tally([], [], [], []) else Count(CountAll(n - 1, reply), reply(n - 1))
  }

  /** Collisions of all chunks become one error, after the plain ones. */
  function AllErrors(t: Tally): seq<TriggerError> {
    if t.collisions == [] then t.errs else t.errs + [Collisions(t.successful, t.collisions)]
  }

  /** What `part` finds in each of the first `n` replies, in call order. */
  function InOrder<R, T>(n: nat, reply: nat -> R, part: R -> seq<T>): seq<T> {
    Flatten(seq(n, i requires 0 <= i < n => part(reply(i))))
  }

  lemma InOrderNext<R, T>(n: nat, reply: nat -> R, part: R -> seq<T>, next: nat)
    requires next == n + 1
    ensures InOrder(next, reply, part) == InOrder(n, reply, part) + part(reply(n))
  {
    var parts := seq(next, i requires 0 <= i < next => part(reply(i)));
    assert parts[..n] == seq(n, i requires 0 <= i < n => part(reply(i)));
  }

  function RunIdsOf(r: Reply): seq<string> { if r.Triggered? then r.runIds else [] }
  function SuccessesOf(r: Reply): seq<string> { if r.Collided? then r.successful else [] }
  function CollisionsOf(r: Reply): seq<string> { if r.Collided? then r.collisions else [] }
  function FailuresOf(r: Reply): seq<TriggerError> { if r.Failed? then [Plain(r.message)] else [] }

  lemma {:induction false} CountsInOrder(n: nat, reply: nat -> Reply)
    ensures CountAll(n, reply) == Tally(InOrder(n, reply, RunIdsOf), InOrder(n, reply, SuccessesOf),
                                        InOrder(n, reply, CollisionsOf), InOrder(n, reply, FailuresOf))
  {
    if n > 0 {
      CountsInOrder(n - 1, reply);
      InOrderNext(n - 1, reply, RunIdsOf, n);
      InOrderNext(n - 1, reply, SuccessesOf, n);
      InOrderNext(n - 1, reply, CollisionsOf, n);
      InOrderNext(n - 1, reply, FailuresOf, n);
    }
  }

  lemma {:induction false} AnyCollision(n: nat, reply: nat -> Reply)
    ensures InOrder(n, reply, CollisionsOf) != [] <==> exists i | 0 <= i < n :: CollisionsOf(reply(i)) != []
  {
    if n > 0 {
      AnyCollision(n - 1, reply);
      InOrderNext(n - 1, reply, CollisionsOf, n);
    }
  }

  /**
   What the caller gets from `n` calls: the run ids of the calls that succeeded, in call order; the failures,
   in call order; then, exactly if some call reported a collision, one error with the ids that did start and
   the collisions of all such calls.
   */
  lemma AnswersInOrder(n: nat, reply: nat -> Reply)
    ensures var t := CountAll(n, reply);
      && t.runIds == InOrder(n, reply, RunIdsOf)
      && AllErrors(t) == InOrder(n, reply, FailuresOf) +
           if exists i | 0 <= i < n :: CollisionsOf(reply(i)) != [] then
             [Collisions(InOrder(n, reply, SuccessesOf), InOrder(n, reply, CollisionsOf))]
           else []
  {
    CountsInOrder(n, reply);
    AnyCollision(n, reply);
  }

  /** The next chunk goes on greedily from where the earlier ones end. */
  method TakeRequests<T>(ghost sent: seq<seq<T>>, requests: seq<T>, start: nat, size: T -> nat) returns (end: nat)
    requires start < |requests| && IsGreedy(sent, requests, start, size, BULK_TRIGGER)
    ensures start < end <= |requests| && IsGreedy(sent + [requests[start..end]], requests, end, size, BULK_TRIGGER)
  {
    end := NextChunkEnd(requests, start, size);
    GreedyExtends(sent, requests, start, requests[start..end], size, BULK_TRIGGER);
  }

  /**
   `reply(i)` is what the i-th call returns.  Every chunk is sent whatever the earlier ones returned.
   The caller sees the join of `errs`; a list of one is that error itself.
   */
  method BulkTriggerChunked<T>(requests: seq<T>, size: T -> nat, reply: nat -> Reply)
    returns (sent: seq<seq<T>>, runIds: seq<string>, errs: seq<TriggerError>)
    ensures IsGreedy(sent, requests, |requests|, size, BULK_TRIGGER)
    ensures runIds == CountAll(|sent|, reply).runIds
    ensures errs == AllErrors(CountAll(|sent|, reply))
  {
    sent, runIds, errs := [], [], [];
    var successfulIds, collisions := [], [];
    var start := 0;
    while start < |requests|
      invariant start <= |requests|
      invariant IsGreedy(sent, requests, start, size, BULK_TRIGGER)
      invariant Tally(runIds, successfulIds, collisions, errs) == CountAll(|sent|, reply)
      decreases |requests| - start
    {
      var end := TakeRequests(sent, requests, start, size);
      var chunk := requests[start..end];
      match reply(|sent|) {
        case Collided(successful, collided) =>
          successfulIds := successfulIds + successful;
          collisions := collisions + collided;
        case Failed(message) => errs := errs + [Plain(message)];
        case Triggered(ids) => runIds := runIds + ids;
      }
      sent := sent + [chunk];
      start := end;
    }
    if collisions != [] {
      errs := errs + [Collisions(successfulIds, collisions)];
    }
  }

  // ---------------------------------------------------------------- stream wakes

  /** Names are byte strings; only their lengths matter here. */
  datatype StreamWake = StreamWake(wakeNamespace: string, wakeTopic: string)

  /** Length of the wake as padded base64 of its JSON, plus separators. */
  function WireSize(w: StreamWake): nat {
    var jsonOverhead := |"{\"namespace\":\"\",\"topic\":\"\"}"|;
    (|w.wakeNamespace| + |w.wakeTopic| + jsonOverhead + 2) / 3 * 4 + 3
  }

  /** Four characters for every three bytes begun, and three separators. */
  lemma WireSizeIsBase64(w: StreamWake) returns (groups: nat)
    ensures WireSize(w) == 4 * groups + 3
    ensures var n := |w.wakeNamespace| + |w.wakeTopic| + 27; n <= 3 * groups < n + 3
  {
    var n := |w.wakeNamespace| + |w.wakeTopic| + 27;
    groups := (n + 2) / 3;
    assert |"{\"namespace\":\"\",\"topic\":\"\"}"| == 27;
    assert n + 2 == 3 * groups + (n + 2) % 3;
  }

  datatype Published = Published(errs: seq<string>) | NotBuilt

  /** The first wake always goes in, so a batch is never empty. */
  method NextWakeBatch<T>(wakes: seq<T>, wireSize: T -> nat) returns (n: nat)
    requires |wakes| > 0
    ensures IsLongest(wakes, n, wireSize, STREAM_WAKES)
  {
    var size := 0;
    n := 0;
    while n < |wakes| && (n == 0 || size + wireSize(wakes[n]) <= STREAM_WAKES.bytes)
      invariant 0 <= n <= |wakes|
      invariant size == Weight(wakes[..n], wireSize)
      invariant n > 0 ==> Fits(wakes[..n], wireSize, STREAM_WAKES)
    {
      assert wakes[..n + 1][..n] == wakes[..n];
      size := size + wireSize(wakes[n]);
      n := n + 1;
    }
    assert n < |wakes| ==> wakes[..n + 1][..n] == wakes[..n];
  }

  /** The next batch goes on greedily from where the earlier ones end. */
  method TakeWakes<T>(ghost batches: seq<seq<T>>, wakes: seq<T>, covered: nat, wireSize: T -> nat)
    returns (batch: seq<T>)
    requires covered < |wakes| && IsGreedy(batches, wakes, covered, wireSize, STREAM_WAKES)
    ensures 0 < |batch| <= |wakes| - covered
    ensures IsGreedy(batches + [batch], wakes, covered + |batch|, wireSize, STREAM_WAKES)
  {
    var rest := wakes[covered..];
    var n := NextWakeBatch(rest, wireSize);
    batch := rest[..n];
    GreedyExtends(batches, wakes, covered, batch, wireSize, STREAM_WAKES);
  }

  /**
   `built(i)` says whether the i-th message could be built, `pub(i)` how its publication ended.  A
   message that cannot be built ends the loop; a failed publication does not.
   */
  method PublishInBatches<T>(wakes: seq<T>, wireSize: T -> nat, built: nat -> bool, pub: nat -> Option<string>)
    returns (batches: seq<seq<T>>, covered: nat, result: Published)
    ensures covered <= |wakes| && IsGreedy(batches, wakes, covered, wireSize, STREAM_WAKES)
    ensures Accounts(|batches|, built, pub, result)
    ensures result.Published? ==> covered == |wakes|
  {
    batches, covered, result := [], 0, Published([]);
    while covered < |wakes| && result.Published?
      invariant covered <= |wakes|
      invariant IsGreedy(batches, wakes, covered, wireSize, STREAM_WAKES)
      invariant Accounts(|batches|, built, pub, result)
      decreases |wakes| - covered
    {
      var batch := TakeWakes(batches, wakes, covered, wireSize);
      result := PublishOne(|batches|, built, pub, result);
      batches, covered := batches + [batch], covered + |batch|;
    }
  }

  /** What is reported after `n` batches. */
  predicate Accounts(n: nat, built: nat -> bool, pub: nat -> Option<string>, result: Published) {
    if result.NotBuilt? then n > 0 && AllBuilt(n - 1, built) && !built(n - 1)
    else AllBuilt(n, built) && result.errs == PubErrors(n, pub)
  }

  method PublishOne(n: nat, built: nat -> bool, pub: nat -> Option<string>, result: Published)
    returns (after: Published)
    requires result.Published? && Accounts(n, built, pub, result)
    ensures Accounts(n + 1, built, pub, after)
  {
    if !built(n) {
      return NotBuilt;
    }
    return Published(result.errs + ErrorsOf(pub(n)));
  }

  method PubStreamWakes(wakes: seq<StreamWake>, built: nat -> bool, pub: nat -> Option<string>)
    returns (batches: seq<seq<StreamWake>>, result: Published)
    ensures Accounts(|batches|, built, pub, result)
    ensures result.Published? ==> IsGreedy(batches, wakes, |wakes|, WireSize, STREAM_WAKES)
  {
    var covered;
    batches, covered, result := PublishInBatches(wakes, WireSize, built, pub);
  }

  /** The first `n` messages could all be built. */
  predicate AllBuilt(n: nat, built: nat -> bool) { n == 0 || (AllBuilt(n - 1, built) && built(n - 1)) }

  function ErrorsOf(e: Option<string>): seq<string> {
    match e case None => [] case Some(m) => [m]
  }

  function PubErrors(n: nat, pub: nat -> Option<string>): seq<string> {
    if n == 0 then [] else PubErrors(n - 1, pub) + ErrorsOf(pub(n - 1))
  }

  /** What is reported after `n` batches, by batch. */
  lemma {:induction false} ReportsInOrder(n: nat, built: nat -> bool, pub: nat -> Option<string>)
    ensures AllBuilt(n, built) <==> forall i | 0 <= i < n :: built(i)
    ensures PubErrors(n, pub) == InOrder(n, pub, ErrorsOf)
  {
    if n > 0 {
      ReportsInOrder(n - 1, built, pub);
      InOrderNext(n - 1, pub, ErrorsOf, n);
    }
  }
}
