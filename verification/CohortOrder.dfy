/** The size and the order of a rollout cohort: `cohortSize`, `nextPercent` and the bucket
    ordering that `advanceOrg` cuts its cohorts from. */
module CohortOrder {

  /** Versions and server ids are only ever compared for equality; numbers stand for them. */
  type Version = int
  type ServerId = int

  /** `bucketFor`: a fixed position per (server, target version); the hash itself is not modelled. */
  type Buckets = (ServerId, Version) -> int

  datatype Candidate = Candidate(server: ServerId, currentVersion: string)

  const PERCENT_STEPS: seq<int> := [10, 25, 50, 100]

  // ---------------------------------------------------------------- cohort sizes

  function CohortSize(total: int, percent: int): (n: int)
    ensures 0 <= n <= if total < 0 then 0 else total
    ensures percent >= 100 && total >= 0 ==> n == total
    ensures total > 0 && percent > 0 ==> n >= 1
  {
    if total <= 0 then 0
    else if percent <= 0 then 0
    else if percent >= 100 then total
    else
      CeilBounds(total, percent);
      var c := (total * percent + 99) / 100;
      if c < 1 then 1 else c
  }

  lemma CeilBounds(total: int, percent: int)
    requires total > 0 && 0 < percent < 100
    ensures 1 <= (total * percent + 99) / 100 <= total
  {
    assert total <= total * percent <= total * 99;
  }

  /** A cohort is the least number of hosts that makes up at least `percent` of the fleet; less than
      none counts as none, and more than the whole as the whole. */
  lemma CohortSizeIsLeast(total: int, percent: int)
    ensures var hosts := if total > 0 then total else 0;
            var p := if percent < 0 then 0 else if percent > 100 then 100 else percent;
            var n := CohortSize(total, percent);
            && 100 * n >= hosts * p
            && forall m :: 0 <= m < n ==> 100 * m < hosts * p
  {
    if total > 0 && 0 < percent < 100 {
      CeilBounds(total, percent);
    }
  }

  /** A larger percentage never covers fewer hosts. */
  lemma CohortSizeMonotone(total: int, p: int, q: int)
    requires p <= q
    ensures CohortSize(total, p) <= CohortSize(total, q)
  {
    if total > 0 && 0 < p {
      if q < 100 {
        assert total * p <= total * q;
      }
    }
  }

  /** Adding `k` hosts to the fleet grows the cohort by at most `k`. */
  lemma CohortSizeGrowth(total: int, k: nat, percent: int)
    requires total >= 0
    ensures CohortSize(total, percent) <= CohortSize(total + k, percent) <= CohortSize(total, percent) + k
  {
    if total > 0 && 0 < percent < 100 {
      var a, b := total * percent, k * percent;
      assert (total + k) * percent == a + b;
      assert 0 <= b <= 100 * k;
      assert (a + 99 + 100 * k) / 100 == (a + 99) / 100 + k;
      CeilBounds(total, percent);
      CeilBounds(total + k, percent);
    }
  }

  // ---------------------------------------------------------------- percent steps

  datatype Step = NoStep | Percent(value: int)

  /** First listed step above `percent`, as `Array.prototype.find` picks it. */
  function FirstAbove(steps: seq<int>, percent: int): (r: Step)
    ensures r.Percent? ==> r.value in steps && r.value > percent
    ensures r.NoStep? <==> forall s :: s in steps ==> s <= percent
  {
    if steps == [] then NoStep
    else if steps[0] > percent then Percent(steps[0])
    else
      assert forall s :: s in steps <==> s == steps[0] || s in steps[1..];
      FirstAbove(steps[1..], percent)
  }

  function NextPercent(percent: int): Step { FirstAbove(PERCENT_STEPS, percent) }

  /** It is the least listed step above, and there is none only at the last. */
  lemma NextPercentIsLeast(percent: int)
    ensures NextPercent(percent).NoStep? <==> percent >= 100
    ensures NextPercent(percent).Percent? ==>
              var p := NextPercent(percent).value;
              && p in PERCENT_STEPS && p > percent
              && forall q :: q in PERCENT_STEPS && q > percent ==> p <= q
  {
    assert PERCENT_STEPS[0] == 10 && PERCENT_STEPS[1] == 25 && PERCENT_STEPS[2] == 50 && PERCENT_STEPS[3] == 100;
    var two, three, four := PERCENT_STEPS[1..], PERCENT_STEPS[2..], PERCENT_STEPS[3..];
    assert two == [25, 50, 100] && two[1..] == three == [50, 100] && three[1..] == four == [100] && four[1..] == [];
    assert FirstAbove([], percent) == NoStep;
    assert FirstAbove(four, percent) == if 100 > percent then Percent(100) else NoStep;
    assert FirstAbove(three, percent) == if 50 > percent then Percent(50) else FirstAbove(four, percent);
    assert FirstAbove(two, percent) == if 25 > percent then Percent(25) else FirstAbove(three, percent);
  }

  /** How many listed steps are still above `percent`: what a rollout has left to climb. */
  function CountAbove(steps: seq<int>, percent: int): (n: nat)
    ensures n <= |steps|
  {
    if steps == [] then 0
    else (if steps[0] > percent then 1 else 0) + CountAbove(steps[1..], percent)
  }

  lemma {:induction false} CountAboveMonotone(steps: seq<int>, p: int, q: int)
    requires p <= q
    ensures CountAbove(steps, q) <= CountAbove(steps, p)
    ensures q in steps && p < q ==> CountAbove(steps, q) < CountAbove(steps, p)
  {
    if steps == [] {
    } else {
      CountAboveMonotone(steps[1..], p, q);
    }
  }

  // ---------------------------------------------------------------- host lists

  function Ids(xs: seq<Candidate>): set<ServerId> {
    if xs == [] then {} else {xs[0].server} + Ids(xs[1..])
  }

  ghost predicate Distinct(xs: seq<Candidate>) {
    xs == [] || (xs[0].server !in Ids(xs[1..]) && Distinct(xs[1..]))
  }

  /** The sub-list of `xs` whose servers are in `s`, in the same order. */
  function Restrict(xs: seq<Candidate>, s: set<ServerId>): (r: seq<Candidate>)
  {
    if xs == [] then []
    else if xs[0].server in s then [xs[0]] + Restrict(xs[1..], s)
    else Restrict(xs[1..], s)
  }

  lemma {:induction false} IdsConcat(xs: seq<Candidate>, ys: seq<Candidate>)
    ensures Ids(xs + ys) == Ids(xs) + Ids(ys)
  {
    if xs == [] {
      assert xs + ys == ys;
    } else {
      IdsConcat(xs[1..], ys);
      assert (xs + ys)[1..] == xs[1..] + ys;
    }
  }

  lemma {:induction false} DistinctConcat(xs: seq<Candidate>, ys: seq<Candidate>)
    ensures Distinct(xs + ys) <==> Distinct(xs) && Distinct(ys) && Ids(xs) !! Ids(ys)
  {
    if xs == [] {
      assert xs + ys == ys;
    } else {
      DistinctConcat(xs[1..], ys);
      IdsConcat(xs[1..], ys);
      assert (xs + ys)[1..] == xs[1..] + ys;
    }
  }

  lemma {:induction false} IdsSize(xs: seq<Candidate>)
    ensures |Ids(xs)| <= |xs|
    ensures Distinct(xs) ==> |Ids(xs)| == |xs|
  {
    if xs == [] {
    } else {
      IdsSize(xs[1..]);
    }
  }

  lemma {:induction false} RestrictConcat(xs: seq<Candidate>, ys: seq<Candidate>, s: set<ServerId>)
    ensures Restrict(xs + ys, s) == Restrict(xs, s) + Restrict(ys, s)
  {
    if xs == [] {
      assert xs + ys == ys;
    } else {
      RestrictConcat(xs[1..], ys, s);
      assert (xs + ys)[1..] == xs[1..] + ys;
    }
  }

  lemma {:induction false} RestrictAll(xs: seq<Candidate>, s: set<ServerId>)
    requires Ids(xs) <= s
    ensures Restrict(xs, s) == xs
  {
    if xs == [] {
    } else {
      RestrictAll(xs[1..], s);
    }
  }

  lemma {:induction false} RestrictIds(xs: seq<Candidate>, s: set<ServerId>)
    ensures Ids(Restrict(xs, s)) == Ids(xs) * s
    ensures Distinct(xs) ==> Distinct(Restrict(xs, s))
  {
    if xs == [] {
    } else {
      RestrictIds(xs[1..], s);
      if xs[0].server in s {
        var r := Restrict(xs, s);
        assert r[0] == xs[0] && r[1..] == Restrict(xs[1..], s);
      }
    }
  }

  // ---------------------------------------------------------------- stable bucket order

  function Insert(bucket: Buckets, v: Version, x: Candidate, xs: seq<Candidate>): (r: seq<Candidate>)
    ensures |r| == |xs| + 1
  {
    if xs == [] then [x]
    else if bucket(x.server, v) <= bucket(xs[0].server, v) then [x] + xs
    else [xs[0]] + Insert(bucket, v, x, xs[1..])
  }

  /** `[...candidates].sort((a, b) => bucketFor(a) - bucketFor(b))`; the language's sort is stable. */
  function SortByBucket(bucket: Buckets, v: Version, xs: seq<Candidate>): (r: seq<Candidate>)
    ensures |r| == |xs|
  {
    if xs == [] then [] else Insert(bucket, v, xs[0], SortByBucket(bucket, v, xs[1..]))
  }

  ghost predicate AtLeast(bucket: Buckets, v: Version, b: int, xs: seq<Candidate>) {
    xs == [] || (b <= bucket(xs[0].server, v) && AtLeast(bucket, v, b, xs[1..]))
  }

  ghost predicate Ordered(bucket: Buckets, v: Version, xs: seq<Candidate>) {
    xs == [] || (AtLeast(bucket, v, bucket(xs[0].server, v), xs[1..]) && Ordered(bucket, v, xs[1..]))
  }

  lemma {:induction false} AtLeastDown(bucket: Buckets, v: Version, b: int, b': int, xs: seq<Candidate>)
    requires AtLeast(bucket, v, b, xs) && b' <= b
    ensures AtLeast(bucket, v, b', xs)
  {
    if xs == [] {
    } else {
      AtLeastDown(bucket, v, b, b', xs[1..]);
    }
  }

  lemma {:induction false} AtLeastInsert(bucket: Buckets, v: Version, b: int, x: Candidate, xs: seq<Candidate>)
    requires AtLeast(bucket, v, b, xs) && b <= bucket(x.server, v)
    ensures AtLeast(bucket, v, b, Insert(bucket, v, x, xs))
  {
    if xs == [] {
    } else if bucket(x.server, v) <= bucket(xs[0].server, v) {
      assert ([x] + xs)[1..] == xs;
    } else {
      AtLeastInsert(bucket, v, b, x, xs[1..]);
      var r := [xs[0]] + Insert(bucket, v, x, xs[1..]);
      assert r[1..] == Insert(bucket, v, x, xs[1..]);
    }
  }

  lemma {:induction false} InsertOrdered(bucket: Buckets, v: Version, x: Candidate, xs: seq<Candidate>)
    requires Ordered(bucket, v, xs)
    ensures Ordered(bucket, v, Insert(bucket, v, x, xs))
  {
    if xs == [] {
    } else if bucket(x.server, v) <= bucket(xs[0].server, v) {
      assert ([x] + xs)[1..] == xs;
      AtLeastDown(bucket, v, bucket(xs[0].server, v), bucket(x.server, v), xs[1..]);
    } else {
      InsertOrdered(bucket, v, x, xs[1..]);
      AtLeastInsert(bucket, v, bucket(xs[0].server, v), x, xs[1..]);
      var r := [xs[0]] + Insert(bucket, v, x, xs[1..]);
      assert r[1..] == Insert(bucket, v, x, xs[1..]);
    }
  }

  lemma {:induction false} SortOrdered(bucket: Buckets, v: Version, xs: seq<Candidate>)
    ensures Ordered(bucket, v, SortByBucket(bucket, v, xs))
  {
    if xs == [] {
    } else {
      SortOrdered(bucket, v, xs[1..]);
      InsertOrdered(bucket, v, xs[0], SortByBucket(bucket, v, xs[1..]));
    }
  }

  lemma {:induction false} InsertPermutes(bucket: Buckets, v: Version, x: Candidate, xs: seq<Candidate>)
    ensures multiset(Insert(bucket, v, x, xs)) == multiset{x} + multiset(xs)
  {
    if xs != [] && bucket(x.server, v) > bucket(xs[0].server, v) {
      InsertPermutes(bucket, v, x, xs[1..]);
      assert xs == [xs[0]] + xs[1..];
    }
  }

  lemma {:induction false} InsertIds(bucket: Buckets, v: Version, x: Candidate, xs: seq<Candidate>)
    ensures var r := Insert(bucket, v, x, xs);
            && Ids(r) == {x.server} + Ids(xs)
            && (Distinct(r) <==> x.server !in Ids(xs) && Distinct(xs))
  {
    if xs == [] {
    } else if bucket(x.server, v) <= bucket(xs[0].server, v) {
      assert ([x] + xs)[1..] == xs;
    } else {
      InsertIds(bucket, v, x, xs[1..]);
      var t := Insert(bucket, v, x, xs[1..]);
      assert ([xs[0]] + t)[1..] == t;
    }
  }

  /** The sort loses no host and invents none. */
  lemma {:induction false} SortPermutes(bucket: Buckets, v: Version, xs: seq<Candidate>)
    ensures var r := SortByBucket(bucket, v, xs);
            && multiset(r) == multiset(xs)
            && Ids(r) == Ids(xs)
            && (Distinct(r) <==> Distinct(xs))
  {
    if xs == [] {
    } else {
      SortPermutes(bucket, v, xs[1..]);
      var t := SortByBucket(bucket, v, xs[1..]);
      InsertPermutes(bucket, v, xs[0], t);
      InsertIds(bucket, v, xs[0], t);
      assert xs == [xs[0]] + xs[1..];
    }
  }

  lemma {:induction false} RestrictAtLeast(bucket: Buckets, v: Version, b: int, xs: seq<Candidate>, s: set<ServerId>)
    requires AtLeast(bucket, v, b, xs)
    ensures AtLeast(bucket, v, b, Restrict(xs, s))
  {
    if xs == [] {
    } else {
      RestrictAtLeast(bucket, v, b, xs[1..], s);
      if xs[0].server in s {
        assert Restrict(xs, s)[1..] == Restrict(xs[1..], s);
      }
    }
  }

  lemma {:induction false} RestrictInsert(
      bucket: Buckets, v: Version, x: Candidate, xs: seq<Candidate>, s: set<ServerId>)
    requires Ordered(bucket, v, xs)
    ensures Restrict(Insert(bucket, v, x, xs), s)
         == if x.server in s then Insert(bucket, v, x, Restrict(xs, s)) else Restrict(xs, s)
  {
    var r := Restrict(xs, s);
    if xs == [] {
    } else if bucket(x.server, v) <= bucket(xs[0].server, v) {
      assert ([x] + xs)[1..] == xs;
      AtLeastDown(bucket, v, bucket(xs[0].server, v), bucket(x.server, v), xs[1..]);
      RestrictAtLeast(bucket, v, bucket(x.server, v), xs, s);
    } else {
      RestrictInsert(bucket, v, x, xs[1..], s);
      var t := Insert(bucket, v, x, xs[1..]);
      assert ([xs[0]] + t)[1..] == t;
      if xs[0].server in s {
        assert r[1..] == Restrict(xs[1..], s);
      } else {
        assert Restrict([xs[0]] + t, s) == Restrict(t, s);
      }
    }
  }

  /** Sorting commutes with taking a sub-list: the order of the hosts that are left does not
      depend on which hosts were taken away. */
  lemma {:induction false} SortRestrict(bucket: Buckets, v: Version, xs: seq<Candidate>, s: set<ServerId>)
    ensures SortByBucket(bucket, v, Restrict(xs, s)) == Restrict(SortByBucket(bucket, v, xs), s)
  {
    if xs == [] {
    } else {
      SortRestrict(bucket, v, xs[1..], s);
      SortOrdered(bucket, v, xs[1..]);
      RestrictInsert(bucket, v, xs[0], SortByBucket(bucket, v, xs[1..]), s);
      if xs[0].server in s {
        var r := Restrict(xs, s);
        assert r[0] == xs[0] && r[1..] == Restrict(xs[1..], s);
      }
    }
  }

  ghost predicate SameBucket(bucket: Buckets, v: Version, b: int, xs: seq<Candidate>) {
    xs == [] || (bucket(xs[0].server, v) == b && SameBucket(bucket, v, b, xs[1..]))
  }

  /** The sort is stable: hosts that share a bucket keep the order they came in. */
  lemma SortStable(bucket: Buckets, v: Version, xs: seq<Candidate>, s: set<ServerId>, b: int)
    requires SameBucket(bucket, v, b, Restrict(xs, s))
    ensures Restrict(SortByBucket(bucket, v, xs), s) == Restrict(xs, s)
  {
    SortRestrict(bucket, v, xs, s);
    SortSameBucket(bucket, v, Restrict(xs, s), b);
  }

  lemma {:induction false} SortSameBucket(bucket: Buckets, v: Version, xs: seq<Candidate>, b: int)
    requires SameBucket(bucket, v, b, xs)
    ensures SortByBucket(bucket, v, xs) == xs
  {
    if xs == [] {
    } else {
      SortSameBucket(bucket, v, xs[1..], b);
    }
  }

  // ---------------------------------------------------------------- the cut

  function Max(a: int, b: int): int { if a >= b then a else b }

  /** How many hosts a step takes off the front of the ordered candidates. */
  function CutLength(cands: nat, seen: nat, step: int): (n: nat)
    ensures n <= cands
    ensures n == Max(0, CohortSize(cands + seen, step) - seen)
  {
    Max(0, CohortSize(cands + seen, step) - seen)
  }

  /** The hosts one step offers to: the candidates in bucket order, cut at the step size. */
  function Cut(bucket: Buckets, v: Version, cands: seq<Candidate>, seen: nat, step: int): (r: seq<Candidate>)
    ensures |r| == CutLength(|cands|, seen, step)
  {
    SortByBucket(bucket, v, cands)[..CutLength(|cands|, seen, step)]
  }

  /** The first `a` hosts of the fleet in stable bucket order. */
  ghost function FirstHosts(bucket: Buckets, v: Version, fleet: seq<Candidate>, a: nat): set<ServerId>
    requires a <= |fleet|
  {
    Ids(SortByBucket(bucket, v, fleet)[..a])
  }

  lemma FirstHostsSize(bucket: Buckets, v: Version, fleet: seq<Candidate>, a: nat)
    requires a <= |fleet| && Distinct(fleet)
    ensures |FirstHosts(bucket, v, fleet, a)| == a
    ensures FirstHosts(bucket, v, fleet, a) <= Ids(fleet)
  {
    hide Ids, Distinct, SortByBucket;
    SortPermutes(bucket, v, fleet);
    PrefixSize(SortByBucket(bucket, v, fleet), a);
  }

  lemma PrefixSize(xs: seq<Candidate>, a: nat)
    requires a <= |xs| && Distinct(xs)
    ensures |Ids(xs[..a])| == a
    ensures Ids(xs[..a]) <= Ids(xs)
  {
    hide Ids, Distinct;
    assert xs == xs[..a] + xs[a..];
    DistinctConcat(xs[..a], xs[a..]);
    IdsConcat(xs[..a], xs[a..]);
    IdsSize(xs[..a]);
  }

  /** What the job sees of a fixed fleet: every host not yet attempted, plus any of the attempted
      ones that still report an older version (a host that rolled back does). */
  ghost predicate ViewOf(fleet: seq<Candidate>, attempted: set<ServerId>, cands: seq<Candidate>) {
    && cands == Restrict(fleet, Ids(cands))
    && Ids(fleet) - attempted <= Ids(cands)
  }

  /** The shape of the candidate list: the hosts offered before first, then the untouched rest of
      the fleet, both in bucket order. */
  lemma OrderedView(bucket: Buckets, v: Version, fleet: seq<Candidate>, a: nat, cands: seq<Candidate>)
    returns (again: seq<Candidate>)
    requires Distinct(fleet) && a <= |fleet|
    requires ViewOf(fleet, FirstHosts(bucket, v, fleet, a), cands)
    ensures SortByBucket(bucket, v, cands) == again + SortByBucket(bucket, v, fleet)[a..]
    ensures Ids(again) == Ids(cands) * FirstHosts(bucket, v, fleet, a)
    ensures |again| == |Ids(cands) * FirstHosts(bucket, v, fleet, a)|
  {
    hide Ids, Distinct, SortByBucket, Restrict;
    var order, s := SortByBucket(bucket, v, fleet), Ids(cands);
    SortPermutes(bucket, v, fleet);
    SortRestrict(bucket, v, fleet, s);
    assert order == order[..a] + order[a..];
    RestrictConcat(order[..a], order[a..], s);
    again := Restrict(order[..a], s);
    DistinctConcat(order[..a], order[a..]);
    IdsConcat(order[..a], order[a..]);
    RestrictAll(order[a..], s);
    RestrictIds(order[..a], s);
    IdsSize(again);
  }

  lemma TakeGrows(order: seq<Candidate>, a: nat, again: seq<Candidate>, n: nat) returns (b: nat)
    requires a <= |order| && n <= |again| + |order| - a
    requires Ids(again) <= Ids(order[..a])
    ensures b == a + Max(0, n - |again|) && b <= |order|
    ensures Ids(order[..a]) + Ids((again + order[a..])[..n]) == Ids(order[..b])
  {
    hide Ids;
    var ordered, k := again + order[a..], |again|;
    if n <= k {
      b := a;
      assert ordered[..n] == again[..n] && again == again[..n] + again[n..];
      IdsConcat(again[..n], again[n..]);
    } else {
      b := a + (n - k);
      assert ordered[..n] == again + order[a..b];
      IdsConcat(again, order[a..b]);
      assert order[..b] == order[..a] + order[a..b];
      IdsConcat(order[..a], order[a..b]);
    }
  }

  /** The attempted hosts that still look like candidates. */
  ghost function Again(bucket: Buckets, v: Version, fleet: seq<Candidate>, a: nat, cands: seq<Candidate>): set<ServerId>
    requires a <= |fleet|
  {
    Ids(cands) * FirstHosts(bucket, v, fleet, a)
  }

  /** Cohort refinement. Let the first `a` hosts of the fleet be attempted and let `k` of them
      still look like candidates. After offering to any first `n` hosts of the cut, the attempted
      set is again a prefix of the whole fleet in stable bucket order, and never more of it than
      the direct cut `CohortSize(fleet, step)`. The full cut reaches exactly
      `max(a, CohortSize(fleet + k, step) - k)` hosts. */
  lemma CutExtendsPrefix(
      bucket: Buckets, v: Version, fleet: seq<Candidate>, a: nat, cands: seq<Candidate>, step: int, n: nat)
    returns (b: nat)
    requires Distinct(fleet) && a <= |fleet|
    requires ViewOf(fleet, FirstHosts(bucket, v, fleet, a), cands)
    requires n <= |Cut(bucket, v, cands, a, step)|
    ensures a <= b <= |fleet|
    ensures FirstHosts(bucket, v, fleet, a) + Ids(Cut(bucket, v, cands, a, step)[..n])
            == FirstHosts(bucket, v, fleet, b)
    ensures b <= Max(a, CohortSize(|fleet|, step))
    ensures n == |Cut(bucket, v, cands, a, step)|
        ==> var k := |Again(bucket, v, fleet, a, cands)|;
            b == Max(a, CohortSize(|fleet| + k, step) - k)
  {
    hide Ids, Distinct, SortByBucket, ViewOf, CohortSize;
    var order := SortByBucket(bucket, v, fleet);
    var again := OrderedView(bucket, v, fleet, a, cands);
    var k := |again|;
    var ordered := again + order[a..];
    assert |cands| == |ordered| == |fleet| + k - a;
    CohortSizeGrowth(|fleet|, k, step);
    assert Cut(bucket, v, cands, a, step)[..n] == ordered[..n];
    b := TakeGrows(order, a, again, n);
  }

  lemma FirstHostsInjective(bucket: Buckets, v: Version, fleet: seq<Candidate>, a: nat, b: nat)
    requires a <= |fleet| && b <= |fleet| && Distinct(fleet)
    ensures FirstHosts(bucket, v, fleet, a) == FirstHosts(bucket, v, fleet, b) <==> a == b
  {
    hide *;
    FirstHostsSize(bucket, v, fleet, a);
    FirstHostsSize(bucket, v, fleet, b);
  }

  /** The attempted hosts once a whole step has been offered. */
  ghost function AttemptedAfter(
      bucket: Buckets, v: Version, fleet: seq<Candidate>, a: nat, cands: seq<Candidate>, step: int): set<ServerId>
    requires a <= |fleet|
  {
    FirstHosts(bucket, v, fleet, a) + Ids(Cut(bucket, v, cands, a, step))
  }

  lemma StepReaches(bucket: Buckets, v: Version, fleet: seq<Candidate>, a: nat, cands: seq<Candidate>, step: int)
    returns (b: nat)
    requires Distinct(fleet) && a <= |fleet|
    requires ViewOf(fleet, FirstHosts(bucket, v, fleet, a), cands)
    ensures b <= |fleet|
    ensures AttemptedAfter(bucket, v, fleet, a, cands, step) == FirstHosts(bucket, v, fleet, b)
    ensures var k := |Again(bucket, v, fleet, a, cands)|;
            b == Max(a, CohortSize(|fleet| + k, step) - k)
  {
    hide Ids, Distinct, SortByBucket, ViewOf, CohortSize, Cut;
    var cut := Cut(bucket, v, cands, a, step);
    assert cut[..|cut|] == cut;
    b := CutExtendsPrefix(bucket, v, fleet, a, cands, step, |cut|);
  }

  lemma MaxMeets(a: int, size: int, grown: int, k: int)
    requires grown <= size + k
    ensures Max(a, grown - k) == size <==> a == size || (a < size && grown == size + k)
  {
  }

  /** The incremental cut is the direct definition - the attempted hosts are exactly the first
      `CohortSize(fleet, step)` - if and only if no more than these had been attempted, and the
      cohort is already covered or the `k` hosts that are counted twice also enlarge it by their
      full number. */
  lemma CutIsDirect(bucket: Buckets, v: Version, fleet: seq<Candidate>, a: nat, cands: seq<Candidate>, step: int)
    requires Distinct(fleet) && a <= |fleet|
    requires ViewOf(fleet, FirstHosts(bucket, v, fleet, a), cands)
    ensures AttemptedAfter(bucket, v, fleet, a, cands, step) == FirstHosts(bucket, v, fleet, CohortSize(|fleet|, step))
        <==> var k, size := |Again(bucket, v, fleet, a, cands)|, CohortSize(|fleet|, step);
             a == size || (a < size && CohortSize(|fleet| + k, step) == size + k)
  {
    hide *;
    var k, size := |Again(bucket, v, fleet, a, cands)|, CohortSize(|fleet|, step);
    var b := StepReaches(bucket, v, fleet, a, cands, step);
    FirstHostsInjective(bucket, v, fleet, b, size);
    CohortSizeGrowth(|fleet|, k, step);
    MaxMeets(a, size, CohortSize(|fleet| + k, step), k);
  }

  lemma CutIsDirectWhen(total: nat, k: nat, step: int)
    requires k == 0 || step >= 100
    ensures CohortSize(total + k, step) == CohortSize(total, step) + k
  {
  }

  /** When no attempted host is still a candidate, or at 100 percent, it is so if and only if no
      more hosts than the cohort had been attempted. */
  lemma CutIsDirectWithoutRollbacks(
      bucket: Buckets, v: Version, fleet: seq<Candidate>, a: nat, cands: seq<Candidate>, step: int)
    requires Distinct(fleet) && a <= |fleet|
    requires ViewOf(fleet, FirstHosts(bucket, v, fleet, a), cands)
    requires Again(bucket, v, fleet, a, cands) == {} || step >= 100
    ensures AttemptedAfter(bucket, v, fleet, a, cands, step) == FirstHosts(bucket, v, fleet, CohortSize(|fleet|, step))
        <==> a <= CohortSize(|fleet|, step)
  {
    hide *;
    CutIsDirectWhen(|fleet|, |Again(bucket, v, fleet, a, cands)|, step);
    CutIsDirect(bucket, v, fleet, a, cands, step);
  }

  /** A step that offers to nobody new although the direct cut names a second host: three hosts,
      the first has rolled back and is still a candidate, and the rollout widens to 50 percent. */
  lemma RolledBackHostTakesAPlace(bucket: Buckets, v: Version, fleet: seq<Candidate>)
    requires |fleet| == 3 && Distinct(fleet) && SortByBucket(bucket, v, fleet) == fleet
    ensures ViewOf(fleet, FirstHosts(bucket, v, fleet, 1), fleet)
    ensures Cut(bucket, v, fleet, 1, 50) == [fleet[0]]
    ensures CohortSize(3, 50) == 2
    ensures AttemptedAfter(bucket, v, fleet, 1, fleet, 50) == FirstHosts(bucket, v, fleet, 1)
    ensures AttemptedAfter(bucket, v, fleet, 1, fleet, 50) != FirstHosts(bucket, v, fleet, 2)
  {
    assert fleet[..1] == [fleet[0]];
    assert Ids([fleet[0]]) == {fleet[0].server} + Ids([fleet[0]][1..]);
    FirstHostsInjective(bucket, v, fleet, 1, 2);
    WholeFleetIsAView(fleet, FirstHosts(bucket, v, fleet, 1));
  }

  lemma WholeFleetIsAView(fleet: seq<Candidate>, attempted: set<ServerId>)
    ensures ViewOf(fleet, attempted, fleet)
  {
    RestrictAll(fleet, Ids(fleet));
  }
}
