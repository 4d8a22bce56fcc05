/**
 The keyed registry of event handlers shared by the subscription listeners.  A registration is found
 under (key, session); its id makes a stale removal a no-op.
 */
module HandlerRegistry {
  import opened Options

  datatype Registration = Registration(handler: nat, hasOnError: bool, regId: nat)

  /** What a remove closure remembers. */
  datatype Token<K> = Token(key: K, session: string, regId: nat)

  /** The store call that created a registration. */
  datatype Issue<K> = Issue(key: K, session: string, registration: Registration)

  type Buckets<K> = map<K, map<string, Registration>>

  function At<K>(b: Buckets<K>, k: K, session: string): Option<Registration> {
    if k in b && session in b[k] then Some(b[k][session]) else None
  }

  /** The (key, session) pairs in use. */
  function Places<K>(b: Buckets<K>): set<(K, string)> {
    set k, s | k in b && s in b[k] :: (k, s)
  }

  function Decimal(n: nat): string {
    var digit := ['0' + (n % 10) as char];
    if n < 10 then digit else Decimal(n / 10) + digit
  }

  function AutoName(n: nat): string { "auto-" + Decimal(n) }

  lemma {:induction false} DecimalsDiffer(m: nat, n: nat)
    requires Decimal(m) == Decimal(n)
    ensures m == n
  {
    var a, b := Decimal(m), Decimal(n);
    assert a[|a| - 1] == '0' + (m % 10) as char && b[|b| - 1] == '0' + (n % 10) as char;
    if m >= 10 && n >= 10 {
      assert a[..|a| - 1] == Decimal(m / 10) && b[..|b| - 1] == Decimal(n / 10);
      DecimalsDiffer(m / 10, n / 10);
    } else {
      assert |Decimal(m / 10)| > 0 && |Decimal(n / 10)| > 0;
    }
  }

  /** Generated session names never repeat. */
  lemma AutoNamesDiffer(m: nat, n: nat)
    requires m != n
    ensures AutoName(m) != AutoName(n)
  {
    if AutoName(m) == AutoName(n) {
      assert Decimal(m) == AutoName(m)[5..] == AutoName(n)[5..] == Decimal(n);
      DecimalsDiffer(m, n);
    }
  }

  /** No bucket is kept empty, and every registration is the one its id was issued for. */
  ghost predicate Consistent<K>(b: Buckets<K>, issued: map<nat, Issue<K>>, nextReg: nat) {
    && (forall k | k in b :: |b[k]| > 0)
    && (forall id | id in issued :: id <= nextReg && issued[id].registration.regId == id)
    && (forall k, s | k in b && s in b[k] :: IssuedAs(b[k][s], k, s, issued))
  }

  ghost predicate IssuedAs<K>(r: Registration, k: K, s: string, issued: map<nat, Issue<K>>) {
    r.regId in issued && issued[r.regId] == Issue(k, s, r)
  }

  function Put<K>(b: Buckets<K>, k: K, s: string, r: Registration): Buckets<K> {
    b[k := (if k in b then b[k] else map[])[s := r]]
  }

  /** The bucket is replaced, or removed with its last registration. */
  function Shrink<K>(b: Buckets<K>, k: K, bucket: map<string, Registration>): Buckets<K> {
    if |bucket| == 0 then b - {k} else b[k := bucket]
  }

  lemma PutKeeps<K>(b: Buckets<K>, issued: map<nat, Issue<K>>, nextReg: nat, k: K, s: string, r: Registration)
    requires Consistent(b, issued, nextReg) && nextReg < r.regId
    ensures Consistent(Put(b, k, s, r), issued[r.regId := Issue(k, s, r)], r.regId)
    ensures forall k', s' :: At(Put(b, k, s, r), k', s') == if k' == k && s' == s then Some(r) else At(b, k', s')
    ensures r.regId !in issued
  {
    var b', issued' := Put(b, k, s, r), issued[r.regId := Issue(k, s, r)];
    assert s in b'[k];
    forall k', s' | k' in b' && s' in b'[k'] ensures IssuedAs(b'[k'][s'], k', s', issued') {
      if k' != k || s' != s {
        assert IssuedAs(b[k'][s'], k', s', issued);
      }
    }
  }

  lemma ShrinkAt<K>(b: Buckets<K>, k: K, bucket: map<string, Registration>, k': K, s: string)
    requires k in b && forall x | x in bucket :: x in b[k] && bucket[x] == b[k][x]
    ensures At(Shrink(b, k, bucket), k', s) ==
      if k' != k then At(b, k', s) else if s in bucket then At(b, k, s) else None
  {}

  lemma ShrinkKeeps<K(!new)>(b: Buckets<K>, issued: map<nat, Issue<K>>, nextReg: nat, k: K, bucket: map<string,
                      Registration>)
    requires Consistent(b, issued, nextReg) && k in b
    requires forall s | s in bucket :: s in b[k] && bucket[s] == b[k][s]
    ensures Consistent(Shrink(b, k, bucket), issued, nextReg)
    ensures forall k', s :: At(Shrink(b, k, bucket), k', s) ==
              if k' != k then At(b, k', s) else if s in bucket then At(b, k, s) else None
  {
    ShrinkIsConsistent(b, issued, nextReg, k, bucket);
    forall k', s
      ensures At(Shrink(b, k, bucket), k', s) ==
        if k' != k then At(b, k', s) else if s in bucket then At(b, k, s) else None
    {
      ShrinkAt(b, k, bucket, k', s);
    }
  }

  lemma ShrinkIsConsistent<K>(b: Buckets<K>, issued: map<nat, Issue<K>>, nextReg: nat, k: K, bucket: map<string,
                              Registration>)
    requires Consistent(b, issued, nextReg) && k in b
    requires forall s | s in bucket :: s in b[k] && bucket[s] == b[k][s]
    ensures Consistent(Shrink(b, k, bucket), issued, nextReg)
  {
    var b' := Shrink(b, k, bucket);
    forall k', s | k' in b' && s in b'[k'] ensures IssuedAs(b'[k'][s], k', s, issued) {
      assert IssuedAs(b[k'][s], k', s, issued);
    }
  }

  class Registry<K(==, !new)> {
    var buckets: Buckets<K>
    var nextReg: nat
    ghost var issued: map<nat, Issue<K>>

    ghost predicate Valid()
      reads this
    {
      Consistent(buckets, issued, nextReg)
    }

    constructor ()
      ensures Valid() && buckets == map[] && issued == map[]
    {
      buckets, nextReg, issued := map[], 0, map[];
    }

    /** The id is new, the session is the caller's or a generated one, and only that place changes. */
    method Store(k: K, name: string, handler: nat, hasOnError: bool) returns (t: Token<K>)
      requires Valid()
      modifies this
      ensures Valid() && t.regId !in old(issued) && t.key == k
      ensures t.session == if name == "" then AutoName(old(nextReg) + 1) else name
      ensures issued == old(issued)[t.regId := Issue(k, t.session, Registration(handler, hasOnError, t.regId))]
      ensures forall k', s' :: At(buckets, k', s') ==
                if k' == k && s' == t.session then Some(Registration(handler, hasOnError, t.regId))
                else At(old(buckets), k', s')
    {
      var session := name;
      if session == "" {
        nextReg := nextReg + 1;
        session := AutoName(nextReg);
      }
      nextReg := nextReg + 1;
      var r := Registration(handler, hasOnError, nextReg);
      PutKeeps(buckets, issued, old(nextReg), k, session, r);
      buckets := Put(buckets, k, session, r);
      issued := issued[nextReg := Issue(k, session, r)];
      t := Token(k, session, nextReg);
    }

    /** Removes what the token's own store call registered, or nothing. */
    method Remove(t: Token<K>)
      requires Valid()
      modifies this
      ensures Valid() && issued == old(issued)
      ensures forall k, s :: At(buckets, k, s) ==
                if k == t.key && s == t.session && t.regId in issued
                   && At(old(buckets), k, s) == Some(issued[t.regId].registration) then None
                else At(old(buckets), k, s)
    {
      if t.key !in buckets {
        return;
      }
      var bucket := buckets[t.key];
      if t.session !in bucket || bucket[t.session].regId != t.regId {
        return;
      }
      assert IssuedAs(bucket[t.session], t.key, t.session, issued);
      ShrinkKeeps(buckets, issued, nextReg, t.key, bucket - {t.session});
      buckets := Shrink(buckets, t.key, bucket - {t.session});
    }

    method RemoveSession(k: K, session: string)
      requires Valid()
      modifies this
      ensures Valid() && issued == old(issued)
      ensures forall k', s' :: At(buckets, k', s') ==
                if k' == k && s' == session then None else At(old(buckets), k', s')
    {
      if k !in buckets {
        return;
      }
      ShrinkKeeps(buckets, issued, nextReg, k, buckets[k] - {session});
      buckets := Shrink(buckets, k, buckets[k] - {session});
    }

    method HasAny() returns (any: bool)
      ensures any <==> exists k, s :: At(buckets, k, s).Some?
    {
      var todo := buckets.Keys;
      while todo != {}
        invariant todo <= buckets.Keys
        invariant forall k | k in buckets && k !in todo :: |buckets[k]| == 0
        decreases |todo|
      {
        var k :| k in todo;
        if |buckets[k]| > 0 {
          var s :| s in buckets[k].Keys;
          assert At(buckets, k, s).Some?;
          return true;
        }
        todo := todo - {k};
      }
      return false;
    }

    /** The keys to subscribe again after a reconnect: those with a handler. */
    method Keys() returns (keys: set<K>)
      requires Valid()
      ensures forall k :: k in keys <==> exists s :: At(buckets, k, s).Some?
    {
      keys := buckets.Keys;
      forall k | k in keys ensures exists s :: At(buckets, k, s).Some? {
        assert buckets[k].Keys != {};
        var s :| s in buckets[k].Keys;
        assert At(buckets, k, s).Some?;
      }
    }

    /** Every registration of `k` once, in no particular order. */
    method Snapshot(k: K) returns (regs: seq<Registration>)
      ensures forall r :: r in regs <==> exists s :: At(buckets, k, s) == Some(r)
      ensures |regs| == if k in buckets then |buckets[k]| else 0
    {
      regs := [];
      var bucket := if k in buckets then buckets[k] else map[];
      var todo := bucket.Keys;
      while todo != {}
        invariant todo <= bucket.Keys
        invariant forall r | r in regs :: exists s :: At(buckets, k, s) == Some(r)
        invariant forall s | s in bucket && s !in todo :: bucket[s] in regs
        invariant |regs| == |bucket.Keys| - |todo|
        decreases |todo|
      {
        var s :| s in todo;
        assert At(buckets, k, s) == Some(bucket[s]);
        regs := regs + [bucket[s]];
        todo := todo - {s};
      }
      forall r | exists s :: At(buckets, k, s) == Some(r) ensures r in regs {
        var s :| At(buckets, k, s) == Some(r);
        assert s in bucket;
      }
    }

    /** Takes out exactly the registrations whose ids are listed: one stored since the list was made stays. */
    method RemoveRegistrations(k: K, regs: seq<Registration>)
      requires Valid()
      modifies this
      ensures Valid() && issued == old(issued)
      ensures forall k', s :: At(buckets, k', s) ==
                if k' == k && At(old(buckets), k, s).Some? && Listed(At(old(buckets), k, s).value.regId, regs)
                then None else At(old(buckets), k', s)
    {
      if k !in buckets {
        return;
      }
      forall s | s in buckets[k] ensures IssuedAs(buckets[k][s], k, s, issued) {}
      var bucket := RemoveListed(buckets[k], regs);
      ShrinkKeeps(buckets, issued, nextReg, k, bucket);
      buckets := Shrink(buckets, k, bucket);
    }

    /** Empties the registry; each registration is counted once and, if it asked, told once. */
    method FailAll() returns (count: nat, told: seq<Registration>)
      requires Valid()
      modifies this
      ensures Valid() && issued == old(issued) && buckets == map[]
      ensures count == |Places(old(buckets))|
      ensures forall r :: r in told <==> r.hasOnError && exists k, s :: At(old(buckets), k, s) == Some(r)
      ensures forall i, j | 0 <= i < j < |told| :: told[i].regId != told[j].regId
    {
      count, told := CountAndTell(buckets, issued);
      buckets := map[];
    }
  }

  method CountAndTell<K(!new)>(b: Buckets<K>, ghost issued: map<nat, Issue<K>>)
    returns (count: nat, told: seq<Registration>)
    requires forall k, s | k in b && s in b[k] :: IssuedAs(b[k][s], k, s, issued)
    ensures count == |Places(b)|
    ensures forall r :: r in told <==> r.hasOnError && exists k, s :: At(b, k, s) == Some(r)
    ensures forall i, j | 0 <= i < j < |told| :: told[i].regId != told[j].regId
  {
    count, told := 0, [];
    var todo := Places(b);
    while todo != {}
      invariant todo <= Places(b)
      invariant count == |Places(b)| - |todo|
      invariant ToldSoFar(b, todo, told)
      decreases |todo|
    {
      var p :| p in todo;
      var r := b[p.0][p.1];
      count := count + 1;
      ToldNext(b, issued, todo, told, p);
      if r.hasOnError {
        told := told + [r];
      }
      todo := todo - {p};
    }
    forall r: Registration | r.hasOnError && exists k, s :: At(b, k, s) == Some(r) ensures r in told {
      var k, s :| At(b, k, s) == Some(r);
      assert (k, s) in Places(b);
    }
  }

  /** A registration not yet visited has an id none of those visited has. */
  lemma VisitedDiffer<K(!new)>(b: Buckets<K>, issued: map<nat, Issue<K>>, todo: set<(K, string)>,
                        told: seq<Registration>, p: (K, string))
    requires forall k, s | k in b && s in b[k] :: IssuedAs(b[k][s], k, s, issued)
    requires p in todo && p.0 in b && p.1 in b[p.0] && forall r | r in told :: Visited(b, todo, r)
    ensures forall r | r in told :: r.regId != b[p.0][p.1].regId
  {
    assert IssuedAs(b[p.0][p.1], p.0, p.1, issued);
    forall t | t in told ensures t.regId != b[p.0][p.1].regId {
      var k, s :| At(b, k, s) == Some(t) && (k, s) !in todo;
      assert IssuedAs(t, k, s, issued);
    }
  }

  lemma StillVisited<K(!new)>(b: Buckets<K>, todo: set<(K, string)>, told: seq<Registration>, p: (K, string))
    requires forall r | r in told :: Visited(b, todo, r)
    ensures forall r | r in told :: Visited(b, todo - {p}, r)
  {
    forall r | r in told ensures Visited(b, todo - {p}, r) {
      var k, s :| At(b, k, s) == Some(r) && (k, s) !in todo;
    }
  }

  /** Those told are the visited registrations that want to be, each once. */
  ghost predicate ToldSoFar<K(!new)>(b: Buckets<K>, todo: set<(K, string)>, told: seq<Registration>) {
    && (forall r | r in told :: r.hasOnError && Visited(b, todo, r))
    && (forall p | p in Places(b) && p !in todo && b[p.0][p.1].hasOnError :: b[p.0][p.1] in told)
    && (forall i, j | 0 <= i < j < |told| :: told[i].regId != told[j].regId)
  }

  lemma ToldNext<K(!new)>(b: Buckets<K>, issued: map<nat, Issue<K>>, todo: set<(K, string)>,
                          told: seq<Registration>, p: (K, string))
    requires forall k, s | k in b && s in b[k] :: IssuedAs(b[k][s], k, s, issued)
    requires p in todo && p in Places(b) && ToldSoFar(b, todo, told)
    ensures var r := b[p.0][p.1]; ToldSoFar(b, todo - {p}, if r.hasOnError then told + [r] else told)
  {
    var r := b[p.0][p.1];
    var told' := if r.hasOnError then told + [r] else told;
    assert At(b, p.0, p.1) == Some(r) && IssuedAs(r, p.0, p.1, issued);
    VisitedDiffer(b, issued, todo, told, p);
    StillVisited(b, todo, told, p);
    forall q | q in Places(b) && q !in todo - {p} && b[q.0][q.1].hasOnError ensures b[q.0][q.1] in told' {
      if q != p {
        assert b[q.0][q.1] in told;
      }
    }
    assert forall t | t in told' :: t in told || t == r;
    assert Visited(b, todo - {p}, r);
  }

  ghost predicate Visited<K(!new)>(b: Buckets<K>, todo: set<(K, string)>, r: Registration) {
    exists k, s :: At(b, k, s) == Some(r) && (k, s) !in todo
  }

  /** The scan for a session by registration id. */
  method FindById(bucket: map<string, Registration>, id: nat) returns (found: Option<string>)
    ensures found.Some? ==> found.value in bucket && bucket[found.value].regId == id
    ensures found.None? ==> forall s | s in bucket :: bucket[s].regId != id
  {
    var todo := bucket.Keys;
    while todo != {}
      invariant todo <= bucket.Keys
      invariant forall s | s in bucket && s !in todo :: bucket[s].regId != id
      decreases |todo|
    {
      var s :| s in todo;
      if bucket[s].regId == id {
        return Some(s);
      }
      todo := todo - {s};
    }
    return None;
  }

  method RemoveListed(was: map<string, Registration>, regs: seq<Registration>)
    returns (bucket: map<string, Registration>)
    requires forall s, s' | s in was && s' in was :: was[s].regId == was[s'].regId ==> s == s'
    ensures forall s :: s in bucket <==> s in was && !Listed(was[s].regId, regs)
    ensures forall s | s in bucket :: bucket[s] == was[s]
  {
    bucket := was;
    for i := 0 to |regs|
      invariant forall s :: s in bucket <==> s in was && !Listed(was[s].regId, regs[..i])
      invariant forall s | s in bucket :: bucket[s] == was[s]
    {
      var found := FindById(bucket, regs[i].regId);
      if found.Some? {
        bucket := bucket - {found.value};
      }
      assert regs[..i + 1] == regs[..i] + [regs[i]];
      forall s | s in was
        ensures Listed(was[s].regId, regs[..i + 1]) <==>
          Listed(was[s].regId, regs[..i]) || regs[i].regId == was[s].regId
      {
        ListedAppend(was[s].regId, regs[..i], regs[i]);
      }
    }
    assert regs[..|regs|] == regs;
  }

  /** A handler registered again under the same place survives the removal of the one it replaced. */
  method StaleRemoveKeepsReplacement<K(!new)>(reg: Registry<K>, k: K, session: string, first: nat, second: nat)
    requires reg.Valid() && session != ""
    modifies reg
    ensures At(reg.buckets, k, session).Some? && At(reg.buckets, k, session).value.handler == second
  {
    var stale := reg.Store(k, session, first, false);
    var kept := reg.Store(k, session, second, false);
    reg.Remove(stale);
  }

  predicate Listed(id: nat, regs: seq<Registration>) {
    exists i :: 0 <= i < |regs| && regs[i].regId == id
  }

  lemma ListedAppend(id: nat, regs: seq<Registration>, r: Registration)
    ensures Listed(id, regs + [r]) <==> Listed(id, regs) || r.regId == id
  {
    if Listed(id, regs) {
      var i :| 0 <= i < |regs| && regs[i].regId == id;
      assert (regs + [r])[i].regId == id;
    }
    if r.regId == id {
      assert (regs + [r])[|regs|].regId == id;
    }
  }
}
