/**
 The next firing times of a monitor with several schedules.

 A schedule is known by its `next` function: an unbounded set of instants, of which `next(t)` is the
 least one after t. Expressions of the form "@every" and expressions that never fire are not of this
 shape.
 */
module Schedules {
  import opened Wrappers

  type Instant = int

  datatype Expression = Cron(next: Instant -> Instant) | Malformed

  datatype Error = UnknownLocation | NoExpressions | MalformedExpression(index: nat)

  /** x is one of the schedule's instants. */
  ghost predicate Fires(next: Instant -> Instant, x: Instant) { next(x - 1) == x }

  ghost predicate SetShaped(next: Instant -> Instant) {
    forall t :: HitsLeast(next, t)
  }

  ghost predicate HitsLeast(next: Instant -> Instant, t: Instant) { IsLeastAfter(next, t, next(t)) }

  ghost predicate IsLeastAfter(next: Instant -> Instant, t: Instant, x: Instant) {
    x > t && Fires(next, x) && forall y :: Fires(next, y) && y > t ==> x <= y
  }

  ghost predicate WellFormed(expressions: seq<Expression>) {
    forall i :: 0 <= i < |expressions| && expressions[i].Cron? ==> SetShaped(expressions[i].next)
  }

  /** The first problem the checks find, in their order. */
  function Problem(expressions: seq<Expression>, locationKnown: bool): (r: Option<Error>)
    ensures r.None? <==> locationKnown && AllCron(expressions)
  {
    if !locationKnown then Some(UnknownLocation)
    else if expressions == [] then Some(NoExpressions)
    else FirstMalformed(expressions, 0)
  }

  function FirstMalformed(expressions: seq<Expression>, from: nat): (r: Option<Error>)
    requires from <= |expressions|
    ensures r == None <==> forall i :: from <= i < |expressions| ==> expressions[i].Cron?
    ensures r.Some? ==> r.value.MalformedExpression? && from <= r.value.index < |expressions|
                        && expressions[r.value.index].Malformed?
                        && forall i :: from <= i < r.value.index ==> expressions[i].Cron?
    decreases |expressions| - from
  {
    if from == |expressions| then None
    else if expressions[from].Malformed? then Some(MalformedExpression(from))
    else FirstMalformed(expressions, from + 1)
  }

  ghost predicate AllCron(expressions: seq<Expression>) {
    expressions != [] && forall i :: 0 <= i < |expressions| ==> expressions[i].Cron?
  }

  /** The least instant after t of any of the schedules. */
  ghost predicate IsEarliest(expressions: seq<Expression>, t: Instant, x: Instant)
    requires AllCron(expressions)
  {
    && x > t
    && (exists i :: 0 <= i < |expressions| && Fires(expressions[i].next, x))
    && (forall i, y :: 0 <= i < |expressions| && Fires(expressions[i].next, y) && y > t ==> x <= y)
  }

  /** One step: the earliest next instant over all expressions. */
  method NextScheduleTime(expressions: seq<Expression>, locationKnown: bool, after: Instant)
    returns (r: Result<Instant, Error>)
    requires WellFormed(expressions)
    ensures r.Err? <==> Problem(expressions, locationKnown).Some?
    ensures r.Err? ==> Problem(expressions, locationKnown) == Some(r.error)
    ensures r.Ok? ==> AllCron(expressions) && IsEarliest(expressions, after, r.value)
  {
    if !locationKnown {
      return Err(UnknownLocation);
    }
    if |expressions| == 0 {
      return Err(NoExpressions);
    }
    var next: Option<Instant> := None;
    for i := 0 to |expressions|
      invariant FirstMalformed(expressions, 0) == FirstMalformed(expressions, i)
      invariant next == None <==> i == 0
      invariant forall k :: 0 <= k < i ==> expressions[k].Cron? && next.value <= expressions[k].next(after)
      invariant i > 0 ==> exists k :: 0 <= k < i && next.value == expressions[k].next(after)
    {
      if expressions[i].Malformed? {
        return Err(MalformedExpression(i));
      }
      var candidate := expressions[i].next(after);
      if next == None || candidate < next.value {
        next := Some(candidate);
      }
    }
    forall i | 0 <= i < |expressions|
      ensures IsLeastAfter(expressions[i].next, after, expressions[i].next(after))
    {
      assert HitsLeast(expressions[i].next, after);
    }
    return Ok(next.value);
  }

  lemma EarliestUnique(expressions: seq<Expression>, t: Instant, x: Instant, y: Instant)
    requires AllCron(expressions) && IsEarliest(expressions, t, x) && IsEarliest(expressions, t, y)
    ensures x == y
  {
    var i :| 0 <= i < |expressions| && Fires(expressions[i].next, x);
    var j :| 0 <= j < |expressions| && Fires(expressions[j].next, y);
  }

  function Before(now: Instant, times: seq<Instant>, k: nat): Instant
    requires k <= |times|
  {
    if k == 0 then now else times[k - 1]
  }

  /** What iterating the single step gives: each instant is the earliest after the one before. */
  ghost predicate IsIteration(expressions: seq<Expression>, now: Instant, times: seq<Instant>)
    requires AllCron(expressions)
  {
    forall k :: 0 <= k < |times| ==> IterationStep(expressions, now, times, k)
  }

  ghost predicate IterationStep(expressions: seq<Expression>, now: Instant, times: seq<Instant>, k: int)
    requires AllCron(expressions) && 0 <= k < |times|
  {
    IsEarliest(expressions, Before(now, times, k), times[k])
  }

  // ----- The batch form -----

  /** Instant number k of one schedule after t. */
  function Nth(next: Instant -> Instant, t: Instant, k: nat): Instant {
    next(if k == 0 then t else Nth(next, t, k - 1))
  }

  ghost predicate Sorted(s: seq<Instant>) { forall i, j :: 0 <= i < j < |s| ==> s[i] <= s[j] }

  function Position(x: Instant, s: seq<Instant>): (k: nat)
    ensures k <= |s| && (forall i :: 0 <= i < k ==> s[i] < x) && (k < |s| ==> x <= s[k])
  {
    if s == [] || x <= s[0] then 0 else 1 + Position(x, s[1..])
  }

  function Insert(x: Instant, s: seq<Instant>): (r: seq<Instant>)
    requires Sorted(s)
    ensures Sorted(r) && multiset(r) == multiset{x} + multiset(s)
  {
    var k := Position(x, s);
    InsertedAt(x, s, k);
    s[..k] + [x] + s[k..]
  }

  lemma InsertedAt(x: Instant, s: seq<Instant>, k: nat)
    requires Sorted(s) && k <= |s|
    requires (forall i :: 0 <= i < k ==> s[i] < x) && (k < |s| ==> x <= s[k])
    ensures Sorted(s[..k] + [x] + s[k..])
    ensures multiset(s[..k] + [x] + s[k..]) == multiset{x} + multiset(s)
  {
    InsertedCounts(x, s, k);
    var r := s[..k] + [x] + s[k..];
    forall i, j | 0 <= i < j < |r|
      ensures r[i] <= r[j]
    {
      assert j > k ==> r[j] == s[j - 1] && (k < |s| ==> s[k] <= s[j - 1]);
      assert i > k ==> r[i] == s[i - 1];
    }
  }

  lemma InsertedCounts(x: Instant, s: seq<Instant>, k: nat)
    requires k <= |s|
    ensures multiset(s[..k] + [x] + s[k..]) == multiset{x} + multiset(s)
  {
    assert s == s[..k] + s[k..];
  }

  /** The library's sort. */
  function Sort(s: seq<Instant>): (r: seq<Instant>)
    ensures Sorted(r) && multiset(r) == multiset(s)
  {
    if s == [] then [] else
      assert s == [s[0]] + s[1..];
      Insert(s[0], Sort(s[1..]))
  }

  /** x is one of the first `count` instants of one of the first n schedules. */
  ghost predicate IsCandidate(expressions: seq<Expression>, now: Instant, count: nat, n: nat, x: Instant)
    requires n <= |expressions| && forall i :: 0 <= i < n ==> expressions[i].Cron?
  {
    exists i, j: nat :: 0 <= i < n && j < count && x == Nth(expressions[i].next, now, j)
  }

  // ----- The candidates of one schedule -----

  lemma {:induction false} NthFires(next: Instant -> Instant, t: Instant, k: nat)
    requires SetShaped(next)
    ensures IsLeastAfter(next, if k == 0 then t else Nth(next, t, k - 1), Nth(next, t, k))
    ensures Nth(next, t, k) > t
  {
    var from := if k == 0 then t else Nth(next, t, k - 1);
    assert HitsLeast(next, from);
    if k > 0 {
      NthFires(next, t, k - 1);
    }
  }

  /** Every instant up to number k is one of the numbers up to k. */
  lemma {:induction false} NthComplete(next: Instant -> Instant, t: Instant, k: nat, x: Instant)
    requires SetShaped(next) && Fires(next, x) && t < x <= Nth(next, t, k)
    ensures exists j: nat :: j <= k && x == Nth(next, t, j)
  {
    NthFires(next, t, k);
    if k > 0 && x <= Nth(next, t, k - 1) {
      NthComplete(next, t, k - 1, x);
    } else {
      assert x == Nth(next, t, k);
    }
  }

  /** Instant number k of one schedule is no earlier than instant number k of all of them. */
  lemma {:induction false} NthLags(expressions: seq<Expression>, now: Instant, times: seq<Instant>, i: int, k: nat)
    requires AllCron(expressions) && WellFormed(expressions) && IsIteration(expressions, now, times)
    requires 0 <= i < |expressions| && k < |times|
    ensures Nth(expressions[i].next, now, k) >= times[k]
  {
    var next := expressions[i].next;
    NthFires(next, now, k);
    if k > 0 {
      NthLags(expressions, now, times, i, k - 1);
    }
    assert IterationStep(expressions, now, times, k);
  }

  /** The earliest instant after the k times found so far is a candidate. */
  lemma NextIsCandidate(expressions: seq<Expression>, now: Instant, count: nat, times: seq<Instant>, x: Instant)
    requires AllCron(expressions) && WellFormed(expressions) && IsIteration(expressions, now, times)
    requires |times| < count && IsEarliest(expressions, Before(now, times, |times|), x)
    ensures IsCandidate(expressions, now, count, |expressions|, x)
  {
    var k := |times|;
    var i :| 0 <= i < |expressions| && Fires(expressions[i].next, x);
    var next := expressions[i].next;
    var more := times + [x];
    assert IsIteration(expressions, now, more) by {
      forall j | 0 <= j < |more|
        ensures IterationStep(expressions, now, more, j)
      {
        assert Before(now, more, j) == Before(now, times, j);
        assert j < k ==> IterationStep(expressions, now, times, j);
      }
    }
    IterationAfter(expressions, now, more, k);
    NthFires(next, now, k);
    if k > 0 {
      NthLags(expressions, now, times, i, k - 1);
    }
    assert x <= Nth(next, now, k);
    NthComplete(next, now, k, x);
  }

  lemma {:induction false} IterationAfter(expressions: seq<Expression>, now: Instant, times: seq<Instant>, k: nat)
    requires AllCron(expressions) && IsIteration(expressions, now, times) && k < |times|
    ensures now < times[k] && Before(now, times, k) < times[k]
  {
    assert IterationStep(expressions, now, times, k);
    if k > 0 {
      IterationAfter(expressions, now, times, k - 1);
    }
  }

  lemma EarliestExists(expressions: seq<Expression>, t: Instant) returns (x: Instant)
    requires AllCron(expressions) && WellFormed(expressions)
    ensures IsEarliest(expressions, t, x)
  {
    x := expressions[0].next(t);
    assert HitsLeast(expressions[0].next, t);
    for i := 1 to |expressions|
      invariant x > t && exists k :: 0 <= k < i && Fires(expressions[k].next, x)
      invariant forall k, y :: 0 <= k < i && Fires(expressions[k].next, y) && y > t ==> x <= y
    {
      assert HitsLeast(expressions[i].next, t);
      if expressions[i].next(t) < x {
        x := expressions[i].next(t);
      }
    }
  }

  ghost predicate StrictlyIncreasing(s: seq<Instant>) { forall i, j :: 0 <= i < j < |s| ==> s[i] < s[j] }

  /** `kept` lists the distinct elements of `all` in order, stopping at `count` of them. */
  ghost predicate FirstDistinct(all: seq<Instant>, count: nat, kept: seq<Instant>) {
    && StrictlyIncreasing(kept) && |kept| <= count
    && (forall x :: x in kept ==> x in all)
    && (forall x :: x in all ==> x in kept || (|kept| == count && count > 0 && kept[count - 1] < x))
  }

  lemma CandidateIsLater(expressions: seq<Expression>, now: Instant, count: nat, x: Instant)
    requires AllCron(expressions) && WellFormed(expressions) && IsCandidate(expressions, now, count, |expressions|, x)
    ensures x > now && exists i :: 0 <= i < |expressions| && Fires(expressions[i].next, x)
  {
    var i, j: nat :| 0 <= i < |expressions| && j < count && x == Nth(expressions[i].next, now, j);
    NthFires(expressions[i].next, now, j);
  }

  /** The distinct candidates in order are what iterating the single step gives. */
  lemma {:induction false} DistinctIsIteration(
      expressions: seq<Expression>, now: Instant, count: nat, all: seq<Instant>, kept: seq<Instant>, k: nat)
    requires AllCron(expressions) && WellFormed(expressions) && FirstDistinct(all, count, kept)
    requires forall x :: x in all <==> IsCandidate(expressions, now, count, |expressions|, x)
    requires k <= count
    ensures k <= |kept| && IsIteration(expressions, now, kept[..k])
  {
    if k > 0 {
      DistinctIsIteration(expressions, now, count, all, kept, k - 1);
      var times := kept[..k - 1];
      var t := Before(now, times, k - 1);
      var x := EarliestExists(expressions, t);
      NextIsCandidate(expressions, now, count, times, x);
      assert x in all;
      assert k <= |kept|;
      assert kept[k - 1] in all;
      CandidateIsLater(expressions, now, count, kept[k - 1]);
      assert t < kept[k - 1];
      assert x <= kept[k - 1];
      assert kept[k - 1] == x;
      forall j | 0 <= j < k
        ensures IterationStep(expressions, now, kept[..k], j)
      {
        assert Before(now, kept[..k], j) == Before(now, times, j);
        assert j < k - 1 ==> IterationStep(expressions, now, times, j);
      }
    }
  }

  /** What the compaction has kept after reading all of s. */
  ghost function Compacted(s: seq<Instant>): seq<Instant> {
    if s == [] then []
    else
      var kept, x := Compacted(s[..|s| - 1]), s[|s| - 1];
      if kept == [] || x != kept[|kept| - 1] then kept + [x] else kept
  }

  lemma CompactedStep(s: seq<Instant>, i: nat)
    requires i < |s|
    ensures var kept := Compacted(s[..i]);
      Compacted(s[..i + 1]) == if kept == [] || s[i] != kept[|kept| - 1] then kept + [s[i]] else kept
  {
    assert s[..i + 1][..i] == s[..i];
  }

  lemma ExtendIncreasing(kept: seq<Instant>, x: Instant)
    requires StrictlyIncreasing(kept) && (kept != [] ==> kept[|kept| - 1] < x)
    ensures StrictlyIncreasing(kept + [x])
  {
  }

  lemma {:induction false} CompactedSorted(s: seq<Instant>)
    requires Sorted(s)
    ensures StrictlyIncreasing(Compacted(s)) && forall x :: x in Compacted(s) <==> x in s
    ensures s != [] ==> Compacted(s) != [] && Compacted(s)[|Compacted(s)| - 1] == s[|s| - 1]
  {
    if s != [] {
      var n := |s| - 1;
      var kept := Compacted(s[..n]);
      CompactedSorted(s[..n]);
      assert s == s[..n] + [s[n]];
      if kept != [] {
        assert n > 0 && kept[|kept| - 1] == s[n - 1] <= s[n];
      }
      if kept == [] || s[n] != kept[|kept| - 1] {
        ExtendIncreasing(kept, s[n]);
      }
    }
  }

  lemma CompactedStops(s: seq<Instant>, count: nat, i: nat)
    requires Sorted(s) && i <= |s| && |Compacted(s[..i])| <= count
    requires i == |s| || |Compacted(s[..i])| == count > 0
    ensures FirstDistinct(s, count, Compacted(s[..i]))
  {
    CompactedSorted(s[..i]);
    assert s == s[..i] + s[i..];
    forall x | x in s && x !in s[..i]
      ensures i < |s| && Compacted(s[..i])[count - 1] < x
    {
      assert s[..i][i - 1] == s[i - 1] && x != s[i - 1];
    }
  }

  /** Compaction in place: the kept elements move to the front of the same array, until there are
      `count` of them or i elements, all of them, have been read. */
  method Compact(a: array<Instant>, count: nat) returns (m: nat, ghost i: nat)
    requires count > 0
    modifies a
    ensures m <= i <= a.Length && m <= count && (i < a.Length ==> m == count)
    ensures a[..m] == Compacted(old(a[..])[..i])
  {
    ghost var s := a[..];
    m, i := 0, 0;
    for r := 0 to a.Length
      invariant i == r && m <= i && m < count
      invariant a[r..] == s[r..]
      invariant a[..m] == Compacted(s[..r])
    {
      var value := a[r];
      assert value == s[r];
      CompactedStep(s, r);
      i := i + 1;
      if m == 0 || value != a[m - 1] {
        ghost var kept, rest := a[..m], s[r + 1..];
        assert a[r + 1..] == rest;
        a[m] := value;
        m := m + 1;
        assert a[..m] == kept + [value] && a[r + 1..] == rest;
      } else {
        assert a[r + 1..] == s[r + 1..];
      }
      if m == count {
        return;
      }
    }
  }

  /** The batch form: collect, sort, remove duplicates, stop at `count`. */
  method NextScheduleTimes(expressions: seq<Expression>, locationKnown: bool, now: Instant, count: int)
    returns (r: Result<seq<Instant>, Error>)
    requires WellFormed(expressions)
    ensures count <= 0 ==> r == Ok([])
    ensures count > 0 ==>
      if Problem(expressions, locationKnown).Some? then r == Err(Problem(expressions, locationKnown).value)
      else AllCron(expressions) && r.Ok? && |r.value| == count && IsIteration(expressions, now, r.value)
  {
    if count <= 0 {
      return Ok([]);
    }
    if !locationKnown {
      return Err(UnknownLocation);
    }
    if |expressions| == 0 {
      return Err(NoExpressions);
    }
    var collected := Collect(expressions, now, count);
    if collected.Err? {
      return collected;
    }
    var sorted := Sort(collected.value);
    var a := new Instant[|sorted|](k requires 0 <= k < |sorted| => sorted[k]);
    assert a[..] == sorted;
    forall x
      ensures x in sorted <==> x in collected.value
    {
      assert x in sorted <==> x in multiset(sorted);
    }
    var m, i := Compact(a, count);
    CompactedStops(sorted, count, i);
    DistinctIsIteration(expressions, now, count, sorted, a[..m], count);
    assert a[..m][..count] == a[..m];
    return Ok(a[..m]);
  }

  /** The loop over the expressions: `count` instants of each. */
  method Collect(expressions: seq<Expression>, now: Instant, count: nat) returns (r: Result<seq<Instant>, Error>)
    ensures r.Err? <==> FirstMalformed(expressions, 0).Some?
    ensures r.Err? ==> Some(r.error) == FirstMalformed(expressions, 0)
    ensures r.Ok? ==> forall x :: x in r.value <==> IsCandidate(expressions, now, count, |expressions|, x)
  {
    var result: seq<Instant> := [];
    for i := 0 to |expressions|
      invariant FirstMalformed(expressions, 0) == FirstMalformed(expressions, i)
      invariant forall k :: 0 <= k < i ==> expressions[k].Cron?
      invariant forall x :: x in result <==> IsCandidate(expressions, now, count, i, x)
    {
      if expressions[i].Malformed? {
        return Err(MalformedExpression(i));
      }
      var instants := FirstInstants(expressions[i].next, now, count);
      forall x
        ensures x in result + instants <==> IsCandidate(expressions, now, count, i + 1, x)
      {
        if x in instants {
          var k: nat :| k < count && x == Nth(expressions[i].next, now, k);
        }
      }
      result := result + instants;
    }
    return Ok(result);
  }

  /** The loop over one schedule. */
  method FirstInstants(schedule: Instant -> Instant, now: Instant, count: nat) returns (instants: seq<Instant>)
    ensures forall x :: x in instants <==> exists k: nat :: k < count && x == Nth(schedule, now, k)
  {
    var next := now;
    instants := [];
    for j := 0 to count
      invariant next == if j == 0 then now else Nth(schedule, now, j - 1)
      invariant forall x :: x in instants <==> exists k: nat :: k < j && x == Nth(schedule, now, k)
    {
      next := schedule(next);
      instants := instants + [next];
    }
  }

  /** The times are the first of all instants after now: they increase strictly, each is an instant of
      some schedule, and no instant up to the last of them is missing. */
  lemma {:induction false} IterationIsFirst(expressions: seq<Expression>, now: Instant, times: seq<Instant>)
    requires AllCron(expressions) && IsIteration(expressions, now, times)
    ensures StrictlyIncreasing(times)
    ensures forall x :: x in times ==> x > now && exists i :: 0 <= i < |expressions| && Fires(expressions[i].next, x)
    ensures times != [] ==>
      forall i, x :: 0 <= i < |expressions| && Fires(expressions[i].next, x) && now < x <= times[|times| - 1] ==> x in times
  {
    if times != [] {
      var n := |times| - 1;
      var front := times[..n];
      forall j | 0 <= j < n
        ensures IterationStep(expressions, now, front, j)
      {
        assert IterationStep(expressions, now, times, j) && Before(now, front, j) == Before(now, times, j);
      }
      IterationIsFirst(expressions, now, front);
      assert IterationStep(expressions, now, times, n);
      IterationAfter(expressions, now, times, n);
      assert times == front + [times[n]];
      assert n > 0 ==> Before(now, times, n) == front[n - 1];
      forall i, x | 0 <= i < |expressions| && Fires(expressions[i].next, x) && x > now && x <= times[n]
        ensures x in times
      {
        if n > 0 && x <= front[n - 1] {
          assert x in front;
        }
      }
    }
  }

  /** Two iterations of the same length agree, so the batch form equals the repeated single step. */
  lemma {:induction false} IterationUnique(expressions: seq<Expression>, now: Instant, a: seq<Instant>, b: seq<Instant>, k: nat)
    requires AllCron(expressions) && IsIteration(expressions, now, a) && IsIteration(expressions, now, b)
    requires k < |a| && k < |b|
    ensures a[k] == b[k]
  {
    if k > 0 {
      IterationUnique(expressions, now, a, b, k - 1);
    }
    assert IterationStep(expressions, now, a, k) && IterationStep(expressions, now, b, k);
    EarliestUnique(expressions, Before(now, a, k), a[k], b[k]);
  }

  ghost predicate HitsEarliest(expressions: seq<Expression>, next: Instant -> Instant, t: Instant)
    requires AllCron(expressions)
  {
    IsEarliest(expressions, t, next(t))
  }

  /** A monitor's schedules together are again of the shape of one schedule, which fires exactly when
      one of them does. */
  lemma CombinedIsSetShaped(expressions: seq<Expression>, next: Instant -> Instant)
    requires AllCron(expressions) && WellFormed(expressions)
    requires forall t :: HitsEarliest(expressions, next, t)
    ensures forall x :: Fires(next, x) <==> exists i :: 0 <= i < |expressions| && Fires(expressions[i].next, x)
    ensures SetShaped(next)
  {
    forall x
      ensures Fires(next, x) <==> exists i :: 0 <= i < |expressions| && Fires(expressions[i].next, x)
    {
      assert HitsEarliest(expressions, next, x - 1);
    }
    forall t
      ensures HitsLeast(next, t)
    {
      assert HitsEarliest(expressions, next, t);
    }
  }
}
