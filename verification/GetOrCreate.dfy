/**
 The shared tables of many tasks' logs, and the get-or-create that serves one list of entries per task
 in a single pass over them. Each task gets what it would have got alone.
 */
module GetOrCreate {
  import opened DurableLog
  import opened RequestEffects
  import Sums
  import opened Options

  type Task = nat

  datatype Row = Row(task: Task, slot: Slot)

  type Rows = map<Row, Entry>

  /** One task's part of the table. */
  function EntriesOf(rows: Rows, t: Task): Entries {
    map r | r in rows && r.task == t :: r.slot := rows[r]
  }

  lemma EntryIs(rows: Rows, t: Task, s: Slot)
    ensures s in EntriesOf(rows, t) <==> Row(t, s) in rows
    ensures Row(t, s) in rows ==> EntriesOf(rows, t)[s] == rows[Row(t, s)]
  {
    if Row(t, s) in rows {
      assert Row(t, s).slot in EntriesOf(rows, t);
    }
  }

  lemma PutRow(rows: Rows, t: Task, s: Slot, e: Entry, u: Task)
    ensures EntriesOf(rows[Row(t, s) := e], u) == if u == t then EntriesOf(rows, u)[s := e] else EntriesOf(rows, u)
  {
    var after := rows[Row(t, s) := e];
    var expected := if u == t then EntriesOf(rows, u)[s := e] else EntriesOf(rows, u);
    forall x ensures x in EntriesOf(after, u) <==> x in expected
      ensures x in expected ==> EntriesOf(after, u)[x] == expected[x]
    {
      EntryIs(rows, u, x);
      EntryIs(after, u, x);
    }
  }

  // ---------------------------------------------------------------- entries by child

  datatype ChildRow = ChildRow(slot: Slot, child: Id)

  ghost predicate ByNode(ss: seq<ChildRow>) { forall i, j | 0 <= i < j < |ss| :: ss[i].slot.node <= ss[j].slot.node }

  method InsertByNode(ss: seq<ChildRow>, x: ChildRow) returns (r: seq<ChildRow>)
    requires ByNode(ss)
    ensures ByNode(r) && forall s :: s in r <==> s in ss || s == x
  {
    var k := 0;
    while k < |ss| && ss[k].slot.node <= x.slot.node
      invariant 0 <= k <= |ss|
      invariant forall i | 0 <= i < k :: ss[i].slot.node <= x.slot.node
    {
      k := k + 1;
    }
    r := ss[..k] + [x] + ss[k..];
    InsertedRow(ss, x, k);
  }

  lemma InsertedRow(ss: seq<ChildRow>, x: ChildRow, k: nat)
    requires ByNode(ss) && k <= |ss| && (k < |ss| ==> x.slot.node < ss[k].slot.node)
    requires forall i | 0 <= i < k :: ss[i].slot.node <= x.slot.node
    ensures var r := ss[..k] + [x] + ss[k..]; ByNode(r) && forall s :: s in r <==> s in ss || s == x
  {
    var r := ss[..k] + [x] + ss[k..];
    forall s ensures s in r <==> s in ss || s == x {
      assert ss == ss[..k] + ss[k..];
    }
  }

  predicate Has(rows: Rows, t: Task, x: ChildRow) {
    Row(t, x.slot) in rows && rows[Row(t, x.slot)].child == Some(x.child)
  }

  /** The entries a task has for some children, by node. */
  method RowsOfChildren(rows: Rows, t: Task, ids: set<Id>) returns (ss: seq<ChildRow>)
    ensures ByNode(ss)
    ensures forall x :: x in ss <==> Has(rows, t, x) && x.child in ids
  {
    ss := [];
    var todo := rows.Keys;
    while todo != {}
      invariant todo <= rows.Keys && ByNode(ss)
      invariant forall x :: x in ss <==> Has(rows, t, x) && x.child in ids && Row(t, x.slot) !in todo
      decreases |todo|
    {
      var r :| r in todo;
      todo := todo - {r};
      var e := rows[r];
      if r.task == t && e.child.Some? && e.child.value in ids {
        ss := InsertByNode(ss, ChildRow(r.slot, e.child.value));
      }
    }
  }

  ghost predicate NewestSoFar(ss: seq<ChildRow>, m: map<Id, Slot>) {
    && (forall c | c in m :: ChildRow(m[c], c) in ss)
    && (forall x | x in ss :: x.child in m && AsNew(m[x.child], x.slot))
  }

  lemma NewestNext(ss: seq<ChildRow>, x: ChildRow, m: map<Id, Slot>)
    requires NewestSoFar(ss, m) && forall y | y in ss :: y.slot.node <= x.slot.node
    ensures var newer := x.child !in m || m[x.child].branch < x.slot.branch;
      NewestSoFar(ss + [x], if newer then m[x.child := x.slot] else m)
  {
    if x.child in m {
      assert ChildRow(m[x.child], x.child) in ss;
    }
  }

  /** A child's newest entry, by one scan of its rows. */
  method NewestByChild(rows: Rows, t: Task, ids: set<Id>) returns (m: map<Id, Slot>)
    ensures forall c :: c in m <==> c in ids && HasEntry(EntriesOf(rows, t), c)
    ensures forall c | c in m :: IsNewest(EntriesOf(rows, t), m[c], c)
  {
    var ss := RowsOfChildren(rows, t, ids);
    m := map[];
    for k := 0 to |ss|
      invariant NewestSoFar(ss[..k], m)
    {
      var x := ss[k];
      assert ss[..k + 1] == ss[..k] + [x];
      NewestNext(ss[..k], x, m);
      if x.child !in m || m[x.child].branch < x.slot.branch {
        m := m[x.child := x.slot];
      }
    }
    assert ss[..|ss|] == ss;
    NewestScanned(rows, t, ids, ss, m);
  }

  lemma NewestScanned(rows: Rows, t: Task, ids: set<Id>, ss: seq<ChildRow>, m: map<Id, Slot>)
    requires forall x :: x in ss <==> Has(rows, t, x) && x.child in ids
    requires NewestSoFar(ss, m)
    ensures forall c :: c in m <==> c in ids && HasEntry(EntriesOf(rows, t), c)
    ensures forall c | c in m :: IsNewest(EntriesOf(rows, t), m[c], c)
  {
    var entries := EntriesOf(rows, t);
    forall c, s ensures ChildAt(entries, s, c) <==> Has(rows, t, ChildRow(s, c)) {
      EntryIs(rows, t, s);
    }
    forall c ensures c in m <==> c in ids && HasEntry(entries, c) {
      if c in m {
        assert ChildRow(m[c], c) in ss && ChildAt(entries, m[c], c);
      }
      if c in ids && HasEntry(entries, c) {
        var s :| ChildAt(entries, s, c);
        assert ChildRow(s, c) in ss;
      }
    }
    forall c | c in m ensures IsNewest(entries, m[c], c) {
      assert ChildAt(entries, m[c], c);
      forall x | ChildAt(entries, x, c) ensures AsNew(m[c], x) {
        assert ChildRow(x, c) in ss;
      }
    }
  }

  // ---------------------------------------------------------------- one task's part of the pass

  method CheckDeterminism(rows: Rows, t: Task, opts: seq<Opt>) returns (ok: bool)
    ensures ok <==> Deterministic(EntriesOf(rows, t), opts)
  {
    for k := 0 to |opts|
      invariant forall i | 0 <= i < k && opts[i].Put? && opts[i].slot in EntriesOf(rows, t) ::
        Matches(opts[i], EntriesOf(rows, t)[opts[i].slot])
    {
      var o := opts[k];
      if o.Put? {
        EntryIs(rows, t, o.slot);
        if Row(t, o.slot) in rows && !Matches(o, rows[Row(t, o.slot)]) {
          return false;
        }
      }
    }
    return true;
  }

  /** Adds a task's new entries to `after`; which ones are new is read off `rows`. */
  method CreateEntries(rows: Rows, before: Rows, t: Task, opts: seq<Opt>) returns (after: Rows)
    requires EntriesOf(before, t) == EntriesOf(rows, t)
    ensures EntriesOf(after, t) == EntriesAfter(EntriesOf(rows, t), opts)
    ensures forall u | u != t :: EntriesOf(after, u) == EntriesOf(before, u)
  {
    after := before;
    for k := 0 to |opts|
      invariant EntriesOf(after, t) == EntriesAfter(EntriesOf(rows, t), opts[..k])
      invariant forall u | u != t :: EntriesOf(after, u) == EntriesOf(before, u)
    {
      var o := opts[k];
      assert opts[..k + 1][..k] == opts[..k];
      if o.Put? {
        EntryIs(rows, t, o.slot);
        if Row(t, o.slot) !in rows {
          forall u
            ensures EntriesOf(after[Row(t, o.slot) := o.entry], u) ==
              if u == t then EntriesOf(after, u)[o.slot := o.entry] else EntriesOf(after, u)
          {
            PutRow(after, t, o.slot, o.entry, u);
          }
          after := after[Row(t, o.slot) := o.entry];
        }
      }
    }
    assert opts[..|opts|] == opts;
  }

  function Skipped(opts: seq<Opt>): set<Id> { set o | o in opts && o.Skip? :: o.child }

  /** Why a task's reused children abort the pass, if they do. */
  ghost predicate Aborts(entries: Entries, opts: seq<Opt>) {
    !SkipsFound(entries, opts) || !SkipsAgree(entries, opts)
  }

  method CheckSkips(rows: Rows, t: Task, opts: seq<Opt>) returns (ok: bool, newest: map<Id, Slot>)
    ensures ok <==> !Aborts(EntriesOf(rows, t), opts)
    ensures ok ==>
      forall k | 0 <= k < |opts| && opts[k].Skip? ::
        opts[k].child in newest && newest[opts[k].child] == Newest(EntriesOf(rows, t), opts[k].child)
  {
    ghost var entries := EntriesOf(rows, t);
    newest := NewestByChild(rows, t, Skipped(opts));
    for k := 0 to |opts|
      invariant forall i | 0 <= i < k && opts[i].Skip? ::
        && HasEntry(entries, opts[i].child) && opts[i].child in newest && newest[opts[i].child] ==
          Newest(entries, opts[i].child)
        && (opts[i].checked ==> Matches(opts[i], entries[newest[opts[i].child]]))
    {
      var o := opts[k];
      if o.Skip? {
        assert o.child in Skipped(opts);
        if o.child !in newest {
          return false, newest;
        }
        NewestIs(entries, newest[o.child], o.child);
        EntryIs(rows, t, newest[o.child]);
        if o.checked && !Matches(o, rows[Row(t, newest[o.child])]) {
          return false, newest;
        }
      }
    }
    return true, newest;
  }

  // ---------------------------------------------------------------- results

  predicate NotBefore(a: Result, b: Result) {
    a.slot.node > b.slot.node || (a.slot.node == b.slot.node && a.slot.branch >= b.slot.branch)
  }

  ghost predicate BySlot(rs: seq<Result>) { forall i, j | 0 <= i < j < |rs| :: NotBefore(rs[j], rs[i]) }

  method InsertResult(rs: seq<Result>, x: Result) returns (out: seq<Result>)
    requires BySlot(rs)
    ensures BySlot(out) && multiset(out) == multiset(rs) + multiset{x}
  {
    var k := 0;
    while k < |rs| && NotBefore(x, rs[k])
      invariant 0 <= k <= |rs|
      invariant forall i | 0 <= i < k :: NotBefore(x, rs[i])
    {
      k := k + 1;
    }
    out := rs[..k] + [x] + rs[k..];
    InsertedResult(rs, x, k);
  }

  function Inserted(rs: seq<Result>, x: Result, k: nat, i: nat): Result
    requires k <= |rs| && i <= |rs|
  {
    if i < k then rs[i] else if i == k then x else rs[i - 1]
  }

  lemma InsertedInOrder(rs: seq<Result>, x: Result, k: nat, i: nat, j: nat)
    requires BySlot(rs) && k <= |rs| && (k < |rs| ==> !NotBefore(x, rs[k]))
    requires forall i | 0 <= i < k :: NotBefore(x, rs[i])
    requires i < j <= |rs|
    ensures NotBefore(Inserted(rs, x, k, j), Inserted(rs, x, k, i))
  {
    if i == k && k < j - 1 {
      assert NotBefore(rs[j - 1], rs[k]);
    }
  }

  lemma InsertedResult(rs: seq<Result>, x: Result, k: nat)
    requires BySlot(rs) && k <= |rs| && (k < |rs| ==> !NotBefore(x, rs[k]))
    requires forall i | 0 <= i < k :: NotBefore(x, rs[i])
    ensures BySlot(rs[..k] + [x] + rs[k..]) && multiset(rs[..k] + [x] + rs[k..]) == multiset(rs) + multiset{x}
  {
    var out := rs[..k] + [x] + rs[k..];
    assert rs == rs[..k] + rs[k..];
    forall i, j | 0 <= i < j < |out| ensures NotBefore(out[j], out[i]) {
      assert out[i] == Inserted(rs, x, k, i) && out[j] == Inserted(rs, x, k, j);
      InsertedInOrder(rs, x, k, i, j);
    }
  }

  method SortResults(rs: seq<Result>) returns (out: seq<Result>)
    ensures BySlot(out) && multiset(out) == multiset(rs)
  {
    out := [];
    for k := 0 to |rs|
      invariant BySlot(out) && multiset(out) == multiset(rs[..k])
    {
      out := InsertResult(out, rs[k]);
      assert rs[..k + 1] == rs[..k] + [rs[k]];
    }
    assert rs[..|rs|] == rs;
  }

  /** What the caller is handed: the results of the calls, by slot. */
  ghost predicate Reports(out: seq<Result>, results: seq<Result>) { BySlot(out) && multiset(out) == multiset(results) }

  /** The results without the one at `i`. */
  function Without(rs: seq<Result>, i: nat): seq<Result>
    requires i < |rs|
  {
    rs[..i] + rs[i + 1..]
  }

  lemma WithoutIsLess(rs: seq<Result>, i: nat)
    requires i < |rs|
    ensures multiset(rs) == multiset(Without(rs, i)) + multiset{rs[i]}
    ensures multiset(Slots(rs)) == multiset(Slots(Without(rs, i))) + multiset{rs[i].slot}
  {
    assert rs == rs[..i] + [rs[i]] + rs[i + 1..];
    var slots := Slots(rs);
    assert slots == slots[..i] + [slots[i]] + slots[i + 1..];
    assert Slots(Without(rs, i)) == slots[..i] + slots[i + 1..];
  }

  /** The same results have the same slots, as often. */
  lemma {:induction false} SameResultsSameSlots(a: seq<Result>, b: seq<Result>)
    requires multiset(a) == multiset(b)
    ensures multiset(Slots(a)) == multiset(Slots(b))
    decreases |a|
  {
    if a == [] {
      assert |b| == |multiset(b)| == 0;
    } else {
      var n := |a| - 1;
      assert a[n] in multiset(b);
      var i :| 0 <= i < |b| && b[i] == a[n];
      WithoutIsLess(a, n);
      WithoutIsLess(b, i);
      assert multiset(Without(a, n)) == multiset(a) - multiset{a[n]} == multiset(Without(b, i));
      SameResultsSameSlots(Without(a, n), Without(b, i));
    }
  }

  predicate SlotNotBefore(a: Slot, b: Slot) { a.node > b.node || (a.node == b.node && a.branch >= b.branch) }

  ghost predicate SlotsSorted(ss: seq<Slot>) { forall i, j | 0 <= i < j < |ss| :: SlotNotBefore(ss[j], ss[i]) }

  lemma LastNotBefore(a: seq<Slot>, b: seq<Slot>)
    requires SlotsSorted(b) && multiset(a) == multiset(b) && a != [] && b != []
    ensures SlotNotBefore(b[|b| - 1], a[|a| - 1])
  {
    assert a[|a| - 1] in multiset(b);
    var i :| 0 <= i < |b| && b[i] == a[|a| - 1];
  }

  lemma SameLastSlot(a: seq<Slot>, b: seq<Slot>)
    requires SlotsSorted(a) && SlotsSorted(b) && multiset(a) == multiset(b) && a != [] && b != []
    ensures a[|a| - 1] == b[|b| - 1] && multiset(a[..|a| - 1]) == multiset(b[..|b| - 1])
  {
    LastNotBefore(a, b);
    LastNotBefore(b, a);
    Sums.WithoutLast(a);
    Sums.WithoutLast(b);
  }

  lemma {:induction false} OneOrderOfSlots(a: seq<Slot>, b: seq<Slot>)
    requires SlotsSorted(a) && SlotsSorted(b) && multiset(a) == multiset(b)
    ensures a == b
    decreases |a|
  {
    assert |a| == |multiset(a)| == |multiset(b)| == |b|;
    if a != [] {
      var n := |a| - 1;
      SameLastSlot(a, b);
      OneOrderOfSlots(a[..n], b[..n]);
      assert a == a[..n] + [a[n]] && b == b[..n] + [b[n]];
    }
  }

  lemma SortedBySlot(rs: seq<Result>)
    ensures BySlot(rs) <==> SlotsSorted(Slots(rs))
  {
    forall i, j | 0 <= i < j < |rs| ensures NotBefore(rs[j], rs[i]) <==> SlotNotBefore(Slots(rs)[j], Slots(rs)[i]) {
    }
    if SlotsSorted(Slots(rs)) {
      forall i, j | 0 <= i < j < |rs| ensures NotBefore(rs[j], rs[i]) {
        assert SlotNotBefore(Slots(rs)[j], Slots(rs)[i]);
      }
    }
  }

  /** The caller gets its slots in the order of its calls exactly when they are in the order of the slots. */
  lemma ReportedInCallOrderExactly(out: seq<Result>, results: seq<Result>)
    requires Reports(out, results)
    ensures Slots(out) == Slots(results) <==> BySlot(results)
  {
    SortedBySlot(out);
    SortedBySlot(results);
    if BySlot(results) {
      SameResultsSameSlots(out, results);
      OneOrderOfSlots(Slots(out), Slots(results));
    }
  }

  method CollectResults(rows: Rows, t: Task, opts: seq<Opt>, newest: map<Id, Slot>) returns (out: seq<Result>)
    requires SkipsFound(EntriesAfter(EntriesOf(rows, t), opts), opts)
    requires forall k | 0 <= k < |opts| && opts[k].Skip? ::
      opts[k].child in newest && newest[opts[k].child] == Newest(EntriesAfter(EntriesOf(rows, t), opts), opts[k].child)
    ensures Reports(out, Results(EntriesOf(rows, t), opts))
  {
    out := CollectFrom(rows, t, opts, newest, Results(EntriesOf(rows, t), opts));
  }

  /** One more result, put among the placed or the skipped ones. */
  lemma CollectedNext(placed: seq<Result>, skipped: seq<Result>, results: seq<Result>, k: nat)
    requires k < |results| && multiset(placed) + multiset(skipped) == multiset(results[..k])
    ensures multiset(placed + [results[k]]) + multiset(skipped) == multiset(results[..k + 1])
    ensures multiset(placed) + multiset(skipped + [results[k]]) == multiset(results[..k + 1])
  {
    assert results[..k + 1] == results[..k] + [results[k]];
  }

  /** `results` is what the entries asked for come to, one by one. */
  method CollectFrom(rows: Rows, t: Task, opts: seq<Opt>, newest: map<Id, Slot>, ghost results: seq<Result>)
    returns (out: seq<Result>)
    requires |results| == |opts|
    requires forall k | 0 <= k < |opts| ::
      if opts[k].Skip? then opts[k].child in newest && results[k] == Result(newest[opts[k].child], true)
      else results[k] == Result(opts[k].slot, opts[k].slot in EntriesOf(rows, t))
    ensures Reports(out, results)
  {
    var placed: seq<Result>, skipped: seq<Result> := [], [];
    for k := 0 to |opts|
      invariant multiset(placed) + multiset(skipped) == multiset(results[..k])
    {
      var o := opts[k];
      CollectedNext(placed, skipped, results, k);
      if o.Put? {
        EntryIs(rows, t, o.slot);
        placed := placed + [Result(o.slot, Row(t, o.slot) in rows)];
      } else {
        skipped := skipped + [Result(newest[o.child], true)];
      }
    }
    assert results[..|opts|] == results;
    out := SortResults(placed + skipped);
  }

  // ---------------------------------------------------------------- the whole pass

  datatype Ask = Ask(task: Task, opts: seq<Opt>)

  ghost predicate DistinctTasks(asks: seq<Ask>) {
    forall i, j | 0 <= i < j < |asks| :: asks[i].task != asks[j].task
  }

  ghost predicate Asked(asks: seq<Ask>, t: Task) { exists i | 0 <= i < |asks| :: asks[i].task == t }

  /** Alone, the task would pass its determinism check. */
  ghost predicate Passes(rows: Rows, a: Ask) { Deterministic(EntriesOf(rows, a.task), a.opts) }

  ghost function SoloAfter(rows: Rows, a: Ask): Entries { EntriesAfter(EntriesOf(rows, a.task), a.opts) }

  /** Alone, the task would abort the transaction. */
  ghost predicate AbortsAlone(rows: Rows, a: Ask) { Passes(rows, a) && Aborts(SoloAfter(rows, a), a.opts) }

  method CheckAll(rows: Rows, asks: seq<Ask>) returns (ok: seq<bool>)
    ensures |ok| == |asks| && forall i | 0 <= i < |asks| :: ok[i] == Passes(rows, asks[i])
  {
    ok := [];
    for k := 0 to |asks|
      invariant |ok| == k && forall i | 0 <= i < k :: ok[i] == Passes(rows, asks[i])
    {
      var b := CheckDeterminism(rows, asks[k].task, asks[k].opts);
      ok := ok + [b];
    }
  }

  ghost function Expected(rows: Rows, a: Ask, created: bool): Entries {
    if created then SoloAfter(rows, a) else EntriesOf(rows, a.task)
  }

  /** So far the entries of the first `k` tasks have been created where `ok` says so. */
  ghost predicate CreatedUpTo(rows: Rows, asks: seq<Ask>, ok: seq<bool>, after: Rows, k: nat)
    requires |ok| == |asks|
  {
    && (forall i | 0 <= i < |asks| :: EntriesOf(after, asks[i].task) == Expected(rows, asks[i], i < k && ok[i]))
    && (forall t | !Asked(asks, t) :: EntriesOf(after, t) == EntriesOf(rows, t))
  }

  lemma OtherTask(asks: seq<Ask>, i: nat, k: nat)
    requires DistinctTasks(asks) && i < |asks| && k < |asks| && i != k
    ensures asks[i].task != asks[k].task
  {}

  lemma CreatedOneMore(rows: Rows, asks: seq<Ask>, ok: seq<bool>, before: Rows, after: Rows, k: nat)
    requires DistinctTasks(asks) && |ok| == |asks| && k < |asks| && CreatedUpTo(rows, asks, ok, before, k)
    requires EntriesOf(after, asks[k].task) == Expected(rows, asks[k], ok[k])
    requires forall u | u != asks[k].task :: EntriesOf(after, u) == EntriesOf(before, u)
    ensures CreatedUpTo(rows, asks, ok, after, k + 1)
  {
    forall i | 0 <= i < |asks| ensures EntriesOf(after, asks[i].task) == Expected(rows, asks[i], i < k + 1 && ok[i]) {
      if i != k {
        OtherTask(asks, i, k);
        assert EntriesOf(before, asks[i].task) == Expected(rows, asks[i], i < k && ok[i]);
      }
    }
    forall t | !Asked(asks, t) ensures EntriesOf(after, t) == EntriesOf(rows, t) {
      assert t != asks[k].task;
    }
  }

  method CreateAll(rows: Rows, asks: seq<Ask>, ok: seq<bool>) returns (after: Rows)
    requires DistinctTasks(asks) && |ok| == |asks|
    ensures CreatedUpTo(rows, asks, ok, after, |asks|)
  {
    after := rows;
    for k := 0 to |asks|
      invariant CreatedUpTo(rows, asks, ok, after, k)
    {
      ghost var before := after;
      assert EntriesOf(before, asks[k].task) == EntriesOf(rows, asks[k].task);
      if ok[k] {
        after := CreateEntries(rows, after, asks[k].task, asks[k].opts);
      }
      CreatedOneMore(rows, asks, ok, before, after, k);
    }
  }

  /** What one task is told: its determinism check failed, or its results by slot. */
  datatype Answer = Rejected | Served(results: seq<Result>)

  /** One task's share of the outcome is what it would be alone. */
  ghost predicate ServedAlone(rows: Rows, after: Rows, a: Ask, answer: Answer) {
    if Passes(rows, a) then
      && !Aborts(SoloAfter(rows, a), a.opts)
      && EntriesOf(after, a.task) == SoloAfter(rows, a)
      && answer.Served? && Reports(answer.results, Results(EntriesOf(rows, a.task), a.opts))
    else
      EntriesOf(after, a.task) == EntriesOf(rows, a.task) && answer.Rejected?
  }

  method ServeOne(rows: Rows, after: Rows, a: Ask, ok: bool) returns (abort: bool, answer: Answer)
    requires ok == Passes(rows, a) && EntriesOf(after, a.task) == Expected(rows, a, ok)
    ensures abort <==> AbortsAlone(rows, a)
    ensures !abort ==> ServedAlone(rows, after, a, answer)
  {
    if !ok {
      return false, Rejected;
    }
    var fine, newest := CheckSkips(after, a.task, a.opts);
    if !fine {
      return true, Rejected;
    }
    var out := CollectResults(rows, a.task, a.opts, newest);
    return false, Served(out);
  }

  /**
   The batch refines one task at a time: it aborts exactly when some task would have aborted alone, and
   otherwise every task gets its own entries, results and error, and other tasks' rows are untouched.
   */
  method GetOrCreateForTasks(rows: Rows, asks: seq<Ask>) returns (abort: bool, after: Rows, answers: seq<Answer>)
    requires DistinctTasks(asks)
    ensures abort <==> exists i | 0 <= i < |asks| :: AbortsAlone(rows, asks[i])
    ensures !abort ==>
      |answers| == |asks| && forall i | 0 <= i < |asks| :: ServedAlone(rows, after, asks[i], answers[i])
    ensures !abort ==> forall t | !Asked(asks, t) :: EntriesOf(after, t) == EntriesOf(rows, t)
  {
    var ok := CheckAll(rows, asks);
    after := CreateAll(rows, asks, ok);
    abort, answers := false, [];
    for k := 0 to |asks|
      invariant |answers| == k
      invariant forall i | 0 <= i < k :: !AbortsAlone(rows, asks[i]) && ServedAlone(rows, after, asks[i], answers[i])
    {
      var stop, answer := ServeOne(rows, after, asks[k], ok[k]);
      if stop {
        return true, after, answers;
      }
      answers := answers + [answer];
    }
  }
}
