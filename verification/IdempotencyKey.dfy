/**
 The text a wait is identified by: its conditions are sorted and their texts concatenated before they
 are hashed, so that the order in which the conditions are given does not matter.
 */
module IdempotencyKey {
  import Sums
  import opened Options

  datatype Kind = Sleep | UserEvent

  /** `orGroup` stands for what neither the order nor the text looks at. */
  datatype Condition = Condition(
    expression: string,
    dataKey: string,
    kind: Kind,
    sleepFor: Option<string>,
    userEventKey: Option<string>,
    orGroup: nat)

  function KindText(k: Kind): string { match k case Sleep => "SLEEP" case UserEvent => "USER_EVENT" }

  // ---------------------------------------------------------------- the order on strings

  predicate StrLess(s: string, t: string) {
    t != [] && (s == [] || s[0] < t[0] || (s[0] == t[0] && StrLess(s[1..], t[1..])))
  }

  lemma {:induction false} StrTotal(s: string, t: string)
    ensures s == t || StrLess(s, t) || StrLess(t, s)
  {
    if s != [] && t != [] && s[0] == t[0] {
      StrTotal(s[1..], t[1..]);
      assert s == [s[0]] + s[1..] && t == [t[0]] + t[1..];
    }
  }

  lemma {:induction false} StrAsymmetric(s: string, t: string)
    ensures !(StrLess(s, t) && StrLess(t, s))
  {
    if s != [] && t != [] {
      StrAsymmetric(s[1..], t[1..]);
    }
  }

  lemma {:induction false} StrTransitive(s: string, t: string, u: string)
    requires StrLess(s, t) && StrLess(t, u)
    ensures StrLess(s, u)
  {
    if s != [] && s[0] == t[0] == u[0] {
      StrTransitive(s[1..], t[1..], u[1..]);
    }
  }

  /** The first place where two strings differ decides, and a string comes after its beginnings. */
  ghost predicate DiffersAt(s: string, t: string, k: nat) {
    k <= |s| && k < |t| && s[..k] == t[..k] && (k == |s| || s[k] < t[k])
  }

  lemma {:induction false} LessAt(s: string, t: string) returns (k: nat)
    requires StrLess(s, t)
    ensures DiffersAt(s, t, k)
  {
    k := 0;
    if s != [] && s[0] == t[0] {
      var m := LessAt(s[1..], t[1..]);
      k := m + 1;
      assert s[..k] == [s[0]] + s[1..][..m] && t[..k] == [t[0]] + t[1..][..m];
    }
  }

  lemma {:induction false} DiffersIsLess(s: string, t: string, k: nat)
    requires DiffersAt(s, t, k)
    ensures StrLess(s, t)
    decreases k
  {
    if k > 0 {
      assert s[0] == s[..k][0] == t[..k][0] == t[0];
      assert s[1..][..k - 1] == s[..k][1..] && t[1..][..k - 1] == t[..k][1..];
      DiffersIsLess(s[1..], t[1..], k - 1);
    }
  }

  lemma StrLessExactly(s: string, t: string)
    ensures StrLess(s, t) <==> exists k: nat :: DiffersAt(s, t, k)
  {
    if StrLess(s, t) {
      var k := LessAt(s, t);
    }
    if k: nat :| DiffersAt(s, t, k) {
      DiffersIsLess(s, t, k);
    }
  }

  // ---------------------------------------------------------------- the comparator and the text

  predicate Less(a: Condition, b: Condition) {
    if a.expression != b.expression then StrLess(a.expression, b.expression)
    else if a.dataKey != b.dataKey then StrLess(a.dataKey, b.dataKey)
    else if a.kind != b.kind then StrLess(KindText(a.kind), KindText(b.kind))
    else if a.sleepFor.Some? && b.sleepFor.Some? && a.sleepFor != b.sleepFor then
      StrLess(a.sleepFor.value, b.sleepFor.value)
    else if a.userEventKey.Some? && b.userEventKey.Some? && a.userEventKey != b.userEventKey then
      StrLess(a.userEventKey.value, b.userEventKey.value)
    else false
  }

  function OrEmpty(s: Option<string>): string { if s.Some? then s.value else "" }

  function ConditionText(c: Condition): string {
    c.expression + c.dataKey + KindText(c.kind) + OrEmpty(c.sleepFor) + OrEmpty(c.userEventKey)
  }

  function Text(cs: seq<Condition>): string {
    if cs == [] then "" else Text(cs[..|cs| - 1]) + ConditionText(cs[|cs| - 1])
  }

  ghost predicate Sorted(cs: seq<Condition>) { forall i, j | 0 <= i < j < |cs| :: !Less(cs[j], cs[i]) }

  /** A sleep carries a duration and nothing else, a user event an event key and nothing else. */
  predicate WellFormed(c: Condition) {
    if c.kind.Sleep? then c.sleepFor.Some? && c.userEventKey.None? else c.userEventKey.Some? && c.sleepFor.None?
  }

  predicate AllWellFormed(cs: seq<Condition>) { forall k | 0 <= k < |cs| :: WellFormed(cs[k]) }

  // ---------------------------------------------------------------- the order on well-formed conditions

  ghost predicate Ties(a: Condition, b: Condition) { !Less(a, b) && !Less(b, a) }

  lemma TiesAgree(a: Condition, b: Condition)
    requires WellFormed(a) && WellFormed(b)
    ensures Ties(a, b) <==>
      a.expression ==
        b.expression && a.dataKey ==
          b.dataKey && a.kind == b.kind && a.sleepFor == b.sleepFor && a.userEventKey == b.userEventKey
  {
    StrTotal(a.expression, b.expression);
    StrTotal(a.dataKey, b.dataKey);
    StrTotal(KindText(a.kind), KindText(b.kind));
    StrTotal(OrEmpty(a.sleepFor), OrEmpty(b.sleepFor));
    StrTotal(OrEmpty(a.userEventKey), OrEmpty(b.userEventKey));
  }

  lemma LessTransitive(a: Condition, b: Condition, c: Condition)
    requires WellFormed(a) && WellFormed(b) && WellFormed(c) && !Less(b, a) && !Less(c, b)
    ensures !Less(c, a)
  {
    StringsTransitive(a.expression, b.expression, c.expression);
    StringsTransitive(a.dataKey, b.dataKey, c.dataKey);
    StringsTransitive(KindText(a.kind), KindText(b.kind), KindText(c.kind));
    StringsTransitive(OrEmpty(a.sleepFor), OrEmpty(b.sleepFor), OrEmpty(c.sleepFor));
    StringsTransitive(OrEmpty(a.userEventKey), OrEmpty(b.userEventKey), OrEmpty(c.userEventKey));
  }

  lemma StringsTransitive(s: string, t: string, u: string)
    ensures !StrLess(t, s) && !StrLess(u, t) ==> !StrLess(u, s) && (s == u ==> s == t && t == u)
  {
    StrTotal(s, t);
    StrTotal(t, u);
    StrAsymmetric(u, s);
    StrAsymmetric(s, t);
    if StrLess(s, t) && StrLess(t, u) {
      StrTransitive(s, t, u);
    }
  }

  // ---------------------------------------------------------------- permutations

  /** A condition without what neither the order nor the text looks at. */
  function Bare(c: Condition): Condition { c.(orGroup := 0) }

  function Bares(cs: seq<Condition>): seq<Condition> { seq(|cs|, k requires 0 <= k < |cs| => Bare(cs[k])) }

  lemma {:induction false} BareText(cs: seq<Condition>)
    ensures Text(Bares(cs)) == Text(cs)
  {
    if cs != [] {
      BareText(cs[..|cs| - 1]);
      assert Bares(cs)[..|cs| - 1] == Bares(cs[..|cs| - 1]);
    }
  }

  function Without(cs: seq<Condition>, i: nat): seq<Condition>
    requires i < |cs|
  {
    cs[..i] + cs[i + 1..]
  }

  lemma WithoutOne(cs: seq<Condition>, i: nat)
    requires i < |cs|
    ensures multiset(cs) == multiset(Without(cs, i)) + multiset{cs[i]}
  {
    assert cs == cs[..i] + [cs[i]] + cs[i + 1..];
  }

  lemma BaresWithout(cs: seq<Condition>, i: nat)
    requires i < |cs|
    ensures multiset(Bares(cs)) == multiset(Bares(Without(cs, i))) + multiset{Bare(cs[i])}
  {
    WithoutOne(Bares(cs), i);
    assert Without(Bares(cs), i) == Bares(Without(cs, i));
  }

  lemma {:induction false} BaresPermute(a: seq<Condition>, b: seq<Condition>)
    requires multiset(a) == multiset(b)
    ensures multiset(Bares(a)) == multiset(Bares(b))
    decreases |a|
  {
    if a == [] {
      assert |multiset(b)| == 0;
    } else {
      assert a[0] in multiset(b);
      var i :| 0 <= i < |b| && b[i] == a[0];
      WithoutOne(a, 0);
      WithoutOne(b, i);
      assert multiset(Without(a, 0)) == multiset(a) - multiset{a[0]} == multiset(Without(b, i));
      BaresPermute(Without(a, 0), Without(b, i));
      BaresWithout(a, 0);
      BaresWithout(b, i);
    }
  }

  ghost predicate IsBare(cs: seq<Condition>) { forall k | 0 <= k < |cs| :: cs[k].orGroup == 0 }

  /** The last elements of two sorted permutations tie. */
  lemma LastsTie(a: seq<Condition>, b: seq<Condition>)
    requires multiset(a) == multiset(b) && Sorted(a) && Sorted(b) && a != [] && b != []
    ensures !Less(b[|b| - 1], a[|a| - 1]) || a[|a| - 1] == b[|b| - 1]
  {
    var x := a[|a| - 1];
    assert x in multiset(b);
    var i :| 0 <= i < |b| && b[i] == x;
  }

  lemma LastsAreSame(a: seq<Condition>, b: seq<Condition>)
    requires multiset(a) == multiset(b) && Sorted(a) && Sorted(b) && a != [] && b != []
    requires IsBare(a) && IsBare(b) && AllWellFormed(a) && AllWellFormed(b)
    ensures a[|a| - 1] == b[|b| - 1]
  {
    LastsTie(a, b);
    LastsTie(b, a);
    TiesAgree(a[|a| - 1], b[|b| - 1]);
  }

  lemma {:induction false} SortedIsUnique(a: seq<Condition>, b: seq<Condition>)
    requires multiset(a) == multiset(b) && Sorted(a) && Sorted(b)
    requires IsBare(a) && IsBare(b) && AllWellFormed(a) && AllWellFormed(b)
    ensures a == b
    decreases |a|
  {
    assert |a| == |multiset(a)| == |multiset(b)| == |b|;
    if a != [] {
      var n := |a| - 1;
      LastsAreSame(a, b);
      Sums.WithoutLast(a);
      Sums.WithoutLast(b);
      SortedIsUnique(a[..n], b[..n]);
      assert a == a[..n] + [a[n]] && b == b[..n] + [b[n]];
    }
  }

  lemma PermutedIsWellFormed(a: seq<Condition>, b: seq<Condition>)
    requires multiset(a) == multiset(b) && AllWellFormed(b)
    ensures AllWellFormed(a)
  {
    forall k | 0 <= k < |a| ensures WellFormed(a[k]) {
      assert a[k] in multiset(b);
    }
  }

  /** Any two sorted arrangements of the same well-formed conditions have the same text. */
  lemma PermutationsAgree(a: seq<Condition>, b: seq<Condition>)
    requires multiset(a) == multiset(b) && Sorted(a) && Sorted(b) && AllWellFormed(b)
    ensures Text(a) == Text(b)
  {
    PermutedIsWellFormed(a, b);
    BaresPermute(a, b);
    SortedIsUnique(Bares(a), Bares(b));
    BareText(a);
    BareText(b);
  }

  // ---------------------------------------------------------------- the sort

  method Insert(cs: seq<Condition>, x: Condition) returns (out: seq<Condition>)
    ensures multiset(out) == multiset(cs) + multiset{x}
    ensures AllWellFormed(cs) && WellFormed(x) && Sorted(cs) ==> AllWellFormed(out) && Sorted(out)
  {
    var k := |cs|;
    while k > 0 && Less(x, cs[k - 1])
      invariant 0 <= k <= |cs|
      invariant forall i | k <= i < |cs| :: Less(x, cs[i])
      decreases k
    {
      k := k - 1;
    }
    out := cs[..k] + [x] + cs[k..];
    assert cs == cs[..k] + cs[k..];
    if AllWellFormed(cs) && WellFormed(x) && Sorted(cs) {
      InsertedIsSorted(cs, x, k);
    }
  }

  lemma InsertedIsSorted(cs: seq<Condition>, x: Condition, k: nat)
    requires AllWellFormed(cs) && WellFormed(x) && Sorted(cs) && k <= |cs|
    requires (k > 0 ==> !Less(x, cs[k - 1])) && forall i | k <= i < |cs| :: Less(x, cs[i])
    ensures AllWellFormed(cs[..k] + [x] + cs[k..]) && Sorted(cs[..k] + [x] + cs[k..])
  {
    forall i | 0 <= i < k ensures !Less(x, cs[i]) {
      if i < k - 1 {
        LessTransitive(cs[i], cs[k - 1], x);
      }
    }
    forall i | k <= i < |cs| ensures !Less(cs[i], x) {
      LessAsymmetric(x, cs[i]);
    }
  }

  lemma LessAsymmetric(a: Condition, b: Condition)
    ensures !(Less(a, b) && Less(b, a))
  {
    StrAsymmetric(a.expression, b.expression);
    StrAsymmetric(a.dataKey, b.dataKey);
    StrAsymmetric(KindText(a.kind), KindText(b.kind));
    StrAsymmetric(OrEmpty(a.sleepFor), OrEmpty(b.sleepFor));
    StrAsymmetric(OrEmpty(a.userEventKey), OrEmpty(b.userEventKey));
  }

  /**
   The text that is hashed. If the conditions are well formed it is the one text they have: whatever order
   they come in, and however ties are broken.
   */
  method WaitText(cs: seq<Condition>) returns (text: string)
    ensures AllWellFormed(cs) ==> forall p: seq<Condition> | multiset(p) == multiset(cs) && Sorted(p) :: Text(p) == text
    ensures exists p: seq<Condition> ::
      multiset(p) == multiset(cs) && Text(p) == text && (AllWellFormed(cs) ==> Sorted(p))
  {
    var sorted: seq<Condition> := [];
    for k := 0 to |cs|
      invariant multiset(sorted) == multiset(cs[..k])
      invariant AllWellFormed(cs[..k]) ==> Sorted(sorted) && AllWellFormed(sorted)
    {
      assert cs[..k + 1] == cs[..k] + [cs[k]];
      assert AllWellFormed(cs[..k + 1]) ==> AllWellFormed(cs[..k]) && WellFormed(cs[..k + 1][k]);
      sorted := Insert(sorted, cs[k]);
    }
    assert cs[..|cs|] == cs;
    text := "";
    for k := 0 to |sorted|
      invariant text == Text(sorted[..k])
    {
      assert sorted[..k + 1][..k] == sorted[..k];
      text := text + ConditionText(sorted[k]);
    }
    assert sorted[..|sorted|] == sorted;
    if AllWellFormed(cs) {
      forall p: seq<Condition> | multiset(p) == multiset(cs) && Sorted(p) ensures Text(p) == text {
        PermutationsAgree(p, sorted);
      }
    }
  }

  // ---------------------------------------------------------------- without that shape

  const EventInSleep := Condition("", "k", Sleep, None, Some("b"), 1)
  const PlainSleep := Condition("", "k", Sleep, Some("a"), None, 2)

  lemma TextOfTwo(a: Condition, b: Condition)
    ensures Text([a, b]) == ConditionText(a) + ConditionText(b)
  {
    assert [a, b][..1] == [a] && [a][..0] == [];
    assert "" + ConditionText(a) == ConditionText(a);
    assert Text([a]) == ConditionText(a);
  }

  /**
   A sleep that carries an event key ties with a plain one, and the text depends on which comes first. The
   dispatcher builds no such condition: its sleeps carry a duration only and its event waits an event key only.
   */
  lemma MixedConditionsDiffer()
    ensures Sorted([EventInSleep, PlainSleep]) && Sorted([PlainSleep, EventInSleep])
    ensures multiset([EventInSleep, PlainSleep]) == multiset([PlainSleep, EventInSleep])
    ensures Text([EventInSleep, PlainSleep]) != Text([PlainSleep, EventInSleep])
  {
    var x, y := EventInSleep, PlainSleep;
    TextOfTwo(x, y);
    TextOfTwo(y, x);
    assert |ConditionText(x)| == |ConditionText(y)| == 7;
    assert ConditionText(x)[6] == 'b' && ConditionText(y)[6] == 'a';
    assert (ConditionText(x) + ConditionText(y))[6] == 'b' && (ConditionText(y) + ConditionText(x))[6] == 'a';
  }

  // ---------------------------------------------------------------- what the text tells apart

  lemma TextNext(a: seq<Condition>, c: Condition)
    ensures Text(a + [c]) == Text(a) + ConditionText(c)
  {
    assert (a + [c])[..|a|] == a;
  }

  /** Texts with a common beginning and a common end agree exactly if what lies between does. */
  lemma Between(pre: string, s: string, t: string, post: string)
    ensures pre + s + post == pre + t + post <==> s == t
  {
    if pre + s + post == pre + t + post {
      assert |s| == |t|;
      assert s == (pre + s + post)[|pre|..|pre| + |s|] == (pre + t + post)[|pre|..|pre| + |t|] == t;
    }
  }

  lemma SameStart(pre: string, s: string, t: string)
    ensures pre + s == pre + t <==> s == t
  {
    Between(pre, s, t, "");
    assert pre + s + "" == pre + s && pre + t + "" == pre + t;
  }

  lemma SameEnd(s: string, t: string, post: string)
    ensures s + post == t + post <==> s == t
  {
    Between("", s, t, post);
    assert "" + s == s && "" + t == t;
  }

  lemma OneMore(a: seq<Condition>, b: seq<Condition>, c: Condition)
    ensures Text(a + [c]) == Text(b + [c]) <==> Text(a) == Text(b)
  {
    TextNext(a, c);
    TextNext(b, c);
    SameEnd(Text(a), Text(b), ConditionText(c));
  }

  lemma LastTells(pre: seq<Condition>, x: Condition, y: Condition)
    ensures Text(pre + [x]) == Text(pre + [y]) <==> ConditionText(x) == ConditionText(y)
  {
    TextNext(pre, x);
    TextNext(pre, y);
    SameStart(Text(pre), ConditionText(x), ConditionText(y));
  }

  lemma SplitLast(cs: seq<Condition>, post: seq<Condition>)
    ensures post == [] ==> cs + post == cs
    ensures post != [] ==> cs + post == cs + post[..|post| - 1] + [post[|post| - 1]]
  {}

  /** Two waits that differ in one condition have the same text exactly if the two conditions have. */
  lemma {:induction false} OneConditionTells(pre: seq<Condition>, x: Condition, y: Condition, post: seq<Condition>)
    ensures Text(pre + [x] + post) == Text(pre + [y] + post) <==> ConditionText(x) == ConditionText(y)
    decreases |post|
  {
    SplitLast(pre + [x], post);
    SplitLast(pre + [y], post);
    if post == [] {
      LastTells(pre, x, y);
    } else {
      OneConditionTells(pre, x, y, post[..|post| - 1]);
      OneMore(pre + [x] + post[..|post| - 1], pre + [y] + post[..|post| - 1], post[|post| - 1]);
    }
  }

  /** Well-formed conditions of one kind that differ in one of the things the text shows have different texts. */
  lemma OneFieldTells(x: Condition, y: Condition)
    requires WellFormed(x) && WellFormed(y) && x.kind == y.kind && !Ties(x, y)
    requires (x.expression == y.expression && x.dataKey == y.dataKey)
          || (x.expression == y.expression && x.sleepFor == y.sleepFor && x.userEventKey == y.userEventKey)
          || (x.dataKey == y.dataKey && x.sleepFor == y.sleepFor && x.userEventKey == y.userEventKey)
    ensures ConditionText(x) != ConditionText(y)
  {
    TiesAgree(x, y);
    EndsTell(x, y);
    TextIs(x);
    TextIs(y);
    var kind, end := KindText(x.kind), EndText(x);
    if x.expression == y.expression && x.dataKey == y.dataKey {
      SameStart(x.expression + x.dataKey + kind, EndText(x), EndText(y));
    } else if x.expression == y.expression {
      Between(x.expression, x.dataKey, y.dataKey, kind + end);
    } else {
      SameEnd(x.expression, y.expression, x.dataKey + (kind + end));
    }
  }

  function EndText(c: Condition): string { OrEmpty(c.sleepFor) + OrEmpty(c.userEventKey) }

  lemma TextIs(c: Condition)
    ensures ConditionText(c) == c.expression + c.dataKey + KindText(c.kind) + EndText(c)
    ensures ConditionText(c) == c.expression + c.dataKey + (KindText(c.kind) + EndText(c))
    ensures ConditionText(c) == c.expression + (c.dataKey + (KindText(c.kind) + EndText(c)))
  {}

  /** A duration or an event key is the whole end of a well-formed condition's text. */
  lemma EndsTell(x: Condition, y: Condition)
    requires WellFormed(x) && WellFormed(y) && x.kind == y.kind
    ensures EndText(x) == EndText(y) <==> x.sleepFor == y.sleepFor && x.userEventKey == y.userEventKey
  {
    assert x.kind.Sleep? ==> EndText(x) == x.sleepFor.value && EndText(y) == y.sleepFor.value;
    assert x.kind.UserEvent? ==> EndText(x) == x.userEventKey.value && EndText(y) == y.userEventKey.value;
  }

  /** Sorted conditions ascend by expression, then data key, then sleeps before events, then duration or event key. */
  lemma SortedFieldByField(cs: seq<Condition>, i: nat, j: nat)
    requires Sorted(cs) && AllWellFormed(cs) && i < j < |cs|
    ensures var a, b := cs[i], cs[j];
      && !StrLess(b.expression, a.expression)
      && (a.expression == b.expression ==>
            && !StrLess(b.dataKey, a.dataKey)
            && (a.dataKey == b.dataKey ==>
                  && (a.kind.UserEvent? ==> b.kind.UserEvent?)
                  && (a.kind == b.kind ==> !StrLess(EndText(b), EndText(a)))))
  {
    var a, b := cs[i], cs[j];
    assert !Less(b, a);
    StrTotal(a.expression, b.expression);
    StrAsymmetric(a.expression, a.expression);
    StrAsymmetric(a.dataKey, a.dataKey);
    assert StrLess("SLEEP", "USER_EVENT");
    assert EndText(a) == (if a.kind.Sleep? then a.sleepFor.value else a.userEventKey.value);
    assert EndText(b) == (if b.kind.Sleep? then b.sleepFor.value else b.userEventKey.value);
    StrAsymmetric(EndText(a), EndText(a));
  }

  /** Nothing separates the parts, so two that differ in several may have one text. */
  lemma PartsRunTogether()
    ensures var x := Condition("a", "bc", Sleep, Some("5s"), None, 0);
      var y := Condition("ab", "c", Sleep, Some("5s"), None, 0);
      WellFormed(x) && WellFormed(y) && !Ties(x, y) && ConditionText(x) == ConditionText(y)
  {
    assert "a" + "bc" == "ab" + "c";
  }
}
