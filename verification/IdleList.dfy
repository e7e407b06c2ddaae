/** Scanning a list for the first eligible entry, taking it out, and counting. */
module IdleList {

  function Not<T>(ok: T -> bool): T -> bool {
    x => !ok(x)
  }

  /** Position of the first eligible entry, or the length of the list. */
  function First<T>(s: seq<T>, ok: T -> bool): (i: nat)
    ensures i <= |s|
    ensures forall j :: 0 <= j < i ==> !ok(s[j])
    ensures i < |s| ==> ok(s[i])
  {
    if s == [] || ok(s[0]) then 0 else 1 + First(s[1..], ok)
  }

  lemma FirstIs<T>(s: seq<T>, ok: T -> bool, i: nat)
    requires i < |s| && ok(s[i])
    requires forall j :: 0 <= j < i ==> !ok(s[j])
    ensures First(s, ok) == i
  {
  }

  function Without<T>(s: seq<T>, i: nat): seq<T>
    requires i < |s|
  {
    s[..i] + s[i + 1..]
  }

  /** The eligible entries, in list order. */
  function Keep<T>(s: seq<T>, ok: T -> bool): seq<T> {
    if s == [] then [] else (if ok(s[0]) then [s[0]] else []) + Keep(s[1..], ok)
  }

  /** The list after up to `n` successive takes; a failing take changes nothing. */
  function AfterTakes<T>(s: seq<T>, ok: T -> bool, n: nat): seq<T> {
    if n == 0 || First(s, ok) == |s| then s else AfterTakes(Without(s, First(s, ok)), ok, n - 1)
  }

  /** What up to `n` successive takes return, stopping at the first failure. */
  function Takes<T>(s: seq<T>, ok: T -> bool, n: nat): seq<T> {
    if n == 0 || First(s, ok) == |s| then []
    else [s[First(s, ok)]] + Takes(Without(s, First(s, ok)), ok, n - 1)
  }

  predicate Distinct<T(==)>(s: seq<T>) {
    forall i, j :: 0 <= i < j < |s| ==> s[i] != s[j]
  }

  ghost function Members<T>(s: seq<T>): set<T> {
    set x | x in s
  }

  lemma {:induction false} DistinctSize<T>(s: seq<T>)
    requires Distinct(s)
    ensures |Members(s)| == |s|
  {
    if s != [] {
      var n := |s| - 1;
      DistinctSize(s[..n]);
      assert s == s[..n] + [s[n]];
      assert Members(s) == Members(s[..n]) + {s[n]};
    }
  }

  lemma WithoutOne<T>(s: seq<T>, i: nat)
    requires i < |s| && Distinct(s)
    ensures Distinct(Without(s, i))
    ensures forall n :: n in Without(s, i) <==> n in s && n != s[i]
  {
    var rest := Without(s, i);
    forall n | n in s && n != s[i]
      ensures n in rest
    {
      var j :| 0 <= j < |s| && s[j] == n;
      assert rest[if j < i then j else j - 1] == n;
    }
  }

  lemma {:induction false} KeepConcat<T>(a: seq<T>, b: seq<T>, ok: T -> bool)
    ensures Keep(a + b, ok) == Keep(a, ok) + Keep(b, ok)
  {
    if a == [] {
      assert a + b == b;
    } else {
      assert (a + b)[0] == a[0] && (a + b)[1..] == a[1..] + b;
      KeepConcat(a[1..], b, ok);
      var first := if ok(a[0]) then [a[0]] else [];
      assert first + (Keep(a[1..], ok) + Keep(b, ok)) == (first + Keep(a[1..], ok)) + Keep(b, ok);
    }
  }

  /** Taking out one entry takes out one eligible entry or none. */
  lemma KeepWithout<T>(s: seq<T>, i: nat, ok: T -> bool)
    requires i < |s|
    ensures |Keep(s, ok)| == |Keep(Without(s, i), ok)| + if ok(s[i]) then 1 else 0
  {
    assert s == s[..i] + ([s[i]] + s[i + 1..]);
    KeepConcat(s[..i], [s[i]] + s[i + 1..], ok);
    KeepConcat(s[..i], s[i + 1..], ok);
    assert ([s[i]] + s[i + 1..])[1..] == s[i + 1..];
  }

  lemma {:induction false} KeepNone<T>(s: seq<T>, ok: T -> bool)
    requires forall x :: x in s ==> !ok(x)
    ensures Keep(s, ok) == []
  {
    if s != [] {
      KeepNone(s[1..], ok);
    }
  }

  lemma {:induction false} KeepMembers<T>(s: seq<T>, ok: T -> bool)
    ensures forall x :: x in Keep(s, ok) <==> x in s && ok(x)
  {
    if s != [] {
      KeepMembers(s[1..], ok);
      assert s == [s[0]] + s[1..];
    }
  }

  lemma {:induction false} SameKeep<T>(s: seq<T>, p: T -> bool, q: T -> bool)
    requires forall x :: x in s ==> p(x) == q(x)
    ensures Keep(s, p) == Keep(s, q)
  {
    if s != [] {
      SameKeep(s[1..], p, q);
    }
  }

  /** Two lists with the same eligibility position by position have equally many eligible entries. */
  lemma {:induction false} SameCount<S, T>(a: seq<S>, p: S -> bool, b: seq<T>, q: T -> bool)
    requires |a| == |b| && forall i :: 0 <= i < |a| ==> p(a[i]) == q(b[i])
    ensures |Keep(a, p)| == |Keep(b, q)|
  {
    if a != [] {
      SameCount(a[1..], p, b[1..], q);
    }
  }

  lemma {:induction false} KeepDistinct<T>(s: seq<T>, ok: T -> bool)
    requires Distinct(s)
    ensures Distinct(Keep(s, ok))
  {
    if s != [] {
      KeepMembers(s[1..], ok);
      KeepDistinct(s[1..], ok);
    }
  }

  /** A take removes the head of the eligible entries and leaves the others in order. */
  lemma {:induction false} TakeOne<T>(s: seq<T>, ok: T -> bool)
    requires First(s, ok) < |s|
    ensures var i := First(s, ok);
            && Keep(s, ok) == [s[i]] + Keep(Without(s, i), ok)
            && Keep(s, Not(ok)) == Keep(Without(s, i), Not(ok))
  {
    var i := First(s, ok);
    if i == 0 {
      assert Without(s, i) == s[1..];
    } else {
      var rest := Without(s, i);
      TakeOne(s[1..], ok);
      assert First(s[1..], ok) == i - 1 && !ok(s[0]);
      assert rest != [] && rest[0] == s[0] && rest[1..] == Without(s[1..], i - 1);
      assert Keep(rest, ok) == Keep(rest[1..], ok);
      assert Keep(rest, Not(ok)) == [s[0]] + Keep(rest[1..], Not(ok));
    }
  }

  function Min(a: nat, b: nat): nat {
    if a <= b then a else b
  }

  /** Successive takes return exactly the eligible entries in list order and then fail. */
  lemma {:induction false} TakesAreThePrefix<T>(s: seq<T>, ok: T -> bool, n: nat)
    ensures Takes(s, ok, n) == Keep(s, ok)[..Min(n, |Keep(s, ok)|)]
    decreases n
  {
    var i := First(s, ok);
    if i == |s| {
      KeepNone(s, ok);
    } else if n > 0 {
      var rest := Without(s, i);
      TakeOne(s, ok);
      TakesAreThePrefix(rest, ok, n - 1);
      PrefixOfCons(s[i], Keep(rest, ok), n);
    }
  }

  /** What is left of the eligible entries, in order. */
  lemma {:induction false} TakesLeaveTheRest<T>(s: seq<T>, ok: T -> bool, n: nat)
    ensures Keep(AfterTakes(s, ok, n), ok) == Keep(s, ok)[Min(n, |Keep(s, ok)|)..]
    decreases n
  {
    var i := First(s, ok);
    if i == |s| {
      KeepNone(s, ok);
    } else if n > 0 {
      var rest := Without(s, i);
      TakeOne(s, ok);
      TakesLeaveTheRest(rest, ok, n - 1);
      PrefixOfCons(s[i], Keep(rest, ok), n);
    }
  }

  /** The ineligible entries all stay, in order. */
  lemma {:induction false} TakesLeaveTheIneligible<T>(s: seq<T>, ok: T -> bool, n: nat)
    ensures Keep(AfterTakes(s, ok, n), Not(ok)) == Keep(s, Not(ok))
    decreases n
  {
    var i := First(s, ok);
    if i < |s| && n > 0 {
      TakeOne(s, ok);
      TakesLeaveTheIneligible(Without(s, i), ok, n - 1);
    }
  }

  lemma PrefixOfCons<T>(x: T, rest: seq<T>, n: nat)
    requires n > 0
    ensures var k := Min(n - 1, |rest|);
            && Min(n, |[x] + rest|) == k + 1
            && ([x] + rest)[..k + 1] == [x] + rest[..k]
            && ([x] + rest)[k + 1..] == rest[k..]
  {
  }

  /** A narrower class has at most as many entries, and as many only if it is the same class on the list. */
  lemma {:induction false} KeepFewer<T>(s: seq<T>, narrow: T -> bool, wide: T -> bool)
    requires forall x :: x in s && narrow(x) ==> wide(x)
    ensures |Keep(s, narrow)| <= |Keep(s, wide)|
    ensures |Keep(s, narrow)| == |Keep(s, wide)| <==> forall x :: x in s && wide(x) ==> narrow(x)
  {
    if s != [] {
      KeepFewer(s[1..], narrow, wide);
      assert s == [s[0]] + s[1..];
    }
  }
}
