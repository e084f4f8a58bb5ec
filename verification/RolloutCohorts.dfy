/** The cohorts of one rollout over whole runs against a fixed fleet: after every event, in every
    interleaving and after every crash, the attempted hosts are a prefix of the fleet in stable
    bucket order. */
module RolloutCohorts {
  import opened CohortOrder
  import opened CollectorRollout

  /** The fleet is fixed: the job is shown every host not yet attempted (and any attempted ones
      that still report an older version), and no write for a fleet host fails. */
  ghost predicate FixedFleet(w: World, v: Version, fleet: seq<Candidate>) {
    ViewOf(fleet, Attempted(w.db, v), w.env.candidates) && w.env.failing !! Ids(fleet)
  }

  ghost predicate KeepsFleet(e: Event, fleet: seq<Candidate>) {
    e.DeleteServer? ==> e.server !in Ids(fleet)
  }

  /** `n` hosts of the cut made from `cands` after `seen` attempts have been offered so far. */
  ghost predicate PartWay(bucket: Buckets, w: World, fleet: seq<Candidate>, n: nat)
    requires w.job.Running? && w.job.pc.Offer?
  {
    var pc := w.job.pc;
    && pc.seen <= |fleet|
    && pc.seen <= CohortSize(|fleet|, Reach(w, pc.v))
    && pc.step <= Reach(w, pc.v)
    && ViewOf(fleet, FirstHosts(bucket, pc.v, fleet, pc.seen), pc.cands)
    && n <= |Cut(bucket, pc.v, pc.cands, pc.seen, pc.step)|
    && pc.todo == Cut(bucket, pc.v, pc.cands, pc.seen, pc.step)[n..]
    && Attempted(w.db, pc.v)
       == FirstHosts(bucket, pc.v, fleet, pc.seen) + Ids(Cut(bucket, pc.v, pc.cands, pc.seen, pc.step)[..n])
  }

  ghost predicate CutInv(bucket: Buckets, w: World, v: Version, fleet: seq<Candidate>) {
    w.job.Running? ==>
      match w.job.pc
      case ReadSeen(u, _, cands) => u == v ==> ViewOf(fleet, Attempted(w.db, v), cands)
      case Offer(u, _, _, _, _, _) => u == v ==> exists n: nat :: PartWay(bucket, w, fleet, n)
      case _ => true
  }

  /** The first `a` hosts of the fleet are attempted, no more than the largest cohort cut so far. */
  ghost predicate CohortInv(bucket: Buckets, w: World, v: Version, fleet: seq<Candidate>, a: nat) {
    && a <= |fleet|
    && Attempted(w.db, v) == FirstHosts(bucket, v, fleet, a)
    && a <= CohortSize(|fleet|, Reach(w, v))
    && CutInv(bucket, w, v, fleet)
  }

  // ---------------------------------------------------------------- one offer

  lemma LastId(xs: seq<Candidate>, n: nat)
    requires n < |xs|
    ensures Ids(xs[..n + 1]) == Ids(xs[..n]) + {xs[n].server}
    ensures Ids(xs[..n + 1]) <= Ids(xs)
  {
    var c := xs[n];
    assert xs[..n + 1] == xs[..n] + [c];
    IdsConcat(xs[..n], [c]);
    assert Ids([c]) == {c.server} + Ids([c][1..]);
    assert xs == xs[..n + 1] + xs[n + 1..];
    IdsConcat(xs[..n + 1], xs[n + 1..]);
  }

  lemma CutInFleet(
      bucket: Buckets, v: Version, fleet: seq<Candidate>, cands: seq<Candidate>, seen: nat, step: int, n: nat)
    requires cands == Restrict(fleet, Ids(cands))
    requires n < |Cut(bucket, v, cands, seen, step)|
    ensures Cut(bucket, v, cands, seen, step)[n].server in Ids(fleet)
  {
    hide Ids, SortByBucket, CohortSize, CutLength;
    RestrictIds(fleet, Ids(cands));
    SortPermutes(bucket, v, cands);
    LastId(SortByBucket(bucket, v, cands), n);
  }

  lemma OfferAdds(bucket: Buckets, w: World)
    requires w.job.Running? && w.job.pc.Offer? && w.job.pc.todo != []
    requires w.job.pc.todo[0].server !in w.env.failing
    ensures Attempted(JobStep(bucket, w).db, w.job.pc.v) == Attempted(w.db, w.job.pc.v) + {w.job.pc.todo[0].server}
  {
    var db, db', v, s := w.db, JobStep(bucket, w).db, w.job.pc.v, w.job.pc.todo[0].server;
    assert (v, s) in db'.attempts;
    forall x | x in Attempted(db, v) + {s} ensures x in Attempted(db', v) {
      assert (v, x) in db'.attempts;
    }
  }

  lemma SubsetSize<T>(a: set<T>, b: set<T>)
    requires a <= b
    ensures |a| <= |b|
  {
    assert b == a + (b - a);
  }

  lemma PrefixesGrow(bucket: Buckets, v: Version, fleet: seq<Candidate>, a: nat, b: nat)
    requires Distinct(fleet) && a <= |fleet| && b <= |fleet|
    requires FirstHosts(bucket, v, fleet, a) <= FirstHosts(bucket, v, fleet, b)
    ensures a <= b
  {
    FirstHostsSize(bucket, v, fleet, a);
    FirstHostsSize(bucket, v, fleet, b);
    SubsetSize(FirstHosts(bucket, v, fleet, a), FirstHosts(bucket, v, fleet, b));
  }

  lemma OfferPartWay(bucket: Buckets, w: World, fleet: seq<Candidate>, n: nat)
    requires w.job.Running? && w.job.pc.Offer? && w.job.pc.todo != []
    requires w.env.failing !! Ids(fleet)
    requires PartWay(bucket, w, fleet, n)
    ensures PartWay(bucket, JobStep(bucket, w), fleet, n + 1)
    ensures Attempted(w.db, w.job.pc.v) <= Attempted(JobStep(bucket, w).db, w.job.pc.v)
  {
    hide Ids, Cut, FirstHosts, Attempted;
    var pc := w.job.pc;
    var cut := Cut(bucket, pc.v, pc.cands, pc.seen, pc.step);
    assert pc.todo[0] == cut[n] && pc.todo[1..] == cut[n + 1..];
    LastId(cut, n);
    CutInFleet(bucket, pc.v, fleet, pc.cands, pc.seen, pc.step, n);
    OfferAdds(bucket, w);
  }

  lemma OfferGrows(bucket: Buckets, w: World, v: Version, fleet: seq<Candidate>, a: nat) returns (b: nat)
    requires Distinct(fleet) && FixedFleet(w, v, fleet) && CohortInv(bucket, w, v, fleet, a)
    requires w.job.Running? && w.job.pc.Offer? && w.job.pc.v == v && w.job.pc.todo != []
    ensures a <= b && CohortInv(bucket, JobStep(bucket, w), v, fleet, b)
  {
    hide Ids, Distinct, Cut, CohortSize, ViewOf, FirstHosts, Attempted;
    var pc := w.job.pc;
    var n: nat :| PartWay(bucket, w, fleet, n);
    OfferPartWay(bucket, w, fleet, n);
    var a' := CutExtendsPrefix(bucket, v, fleet, pc.seen, pc.cands, pc.step, n);
    FirstHostsInjective(bucket, v, fleet, a, a');
    b := CutExtendsPrefix(bucket, v, fleet, pc.seen, pc.cands, pc.step, n + 1);
    PrefixesGrow(bucket, v, fleet, a, b);
    CohortSizeMonotone(|fleet|, pc.step, Reach(w, v));
  }

  // ---------------------------------------------------------------- every event

  lemma SeenStartsCut(bucket: Buckets, w: World, v: Version, fleet: seq<Candidate>, a: nat)
    requires Distinct(fleet) && CohortInv(bucket, w, v, fleet, a)
    requires w.job.Running? && w.job.pc.ReadSeen? && w.job.pc.v == v
    ensures CohortInv(bucket, JobStep(bucket, w), v, fleet, a)
  {
    hide Ids, Distinct, Cut, CohortSize, ViewOf, FirstHosts, Attempted, StepAfter;
    FirstHostsSize(bucket, v, fleet, a);
    var w' := JobStep(bucket, w);
    CohortSizeMonotone(|fleet|, Reach(w, v), Reach(w', v));
    if w'.job.Running? && w'.job.pc.Offer? {
      var pc := w'.job.pc;
      var cut := Cut(bucket, v, pc.cands, pc.seen, pc.step);
      assert cut[0..] == cut && cut[..0] == [];
      NoIds();
      assert PartWay(bucket, w', fleet, 0);
    }
  }

  lemma NoIds()
    ensures Ids([]) == {}
  {
  }

  lemma QuietWrite(w: World, v: Version)
    requires w.job.Running?
    requires w.job.pc.Offer? ==> w.job.pc.v != v || w.job.pc.todo == []
    ensures Attempted(Written(w), v) == Attempted(w.db, v)
  {
    assert forall k: Key :: k.0 == v ==> (k in Written(w).attempts <==> k in w.db.attempts);
    hide Written;
    forall x ensures x in Attempted(Written(w), v) <==> x in Attempted(w.db, v) {
      assert (v, x) in Written(w).attempts <==> (v, x) in w.db.attempts;
    }
  }

  lemma AccessReaches(bucket: Buckets, w: World, v: Version)
    requires w.job.Running?
    ensures w.job.pc.ReadSeen? ==> w.job.pc.v != v ==> Reach(JobStep(bucket, w), v) == Reach(w, v)
    ensures !w.job.pc.ReadSeen? ==> Reach(JobStep(bucket, w), v) == Reach(w, v)
  {
    hide Cut, StepAfter, GateTripped, StepHealth, FindRolling, Attempted, CloseRollout, WithdrawInactive, FailSilent,
      SetRow, DwellOk;
  }

  lemma QuietAccess(bucket: Buckets, w: World, v: Version)
    requires w.job.Running?
    requires w.job.pc.Offer? ==> w.job.pc.v != v || w.job.pc.todo == []
    ensures Attempted(JobStep(bucket, w).db, v) == Attempted(w.db, v)
    ensures w.job.pc.ReadSeen? ==> w.job.pc.v != v ==> Reach(JobStep(bucket, w), v) == Reach(w, v)
    ensures !w.job.pc.ReadSeen? ==> Reach(JobStep(bucket, w), v) == Reach(w, v)
  {
    hide JobStep, Written, Attempted;
    StepWrites(bucket, w);
    QuietWrite(w, v);
    AccessReaches(bucket, w, v);
  }

  lemma AccessKeepsCohort(bucket: Buckets, w: World, v: Version, fleet: seq<Candidate>, a: nat) returns (b: nat)
    requires Distinct(fleet) && FixedFleet(w, v, fleet) && CohortInv(bucket, w, v, fleet, a) && w.job.Running?
    ensures a <= b && CohortInv(bucket, JobStep(bucket, w), v, fleet, b)
  {
    hide Ids, Distinct, Cut, CohortSize, ViewOf, FirstHosts, Attempted, PartWay, StepAfter, GateTripped, StepHealth;
    if w.job.pc.Offer? && w.job.pc.v == v && w.job.pc.todo != [] {
      b := OfferGrows(bucket, w, v, fleet, a);
    } else {
      b := a;
      QuietAccess(bucket, w, v);
      if w.job.pc.ReadSeen? && w.job.pc.v == v {
        SeenStartsCut(bucket, w, v, fleet, a);
      }
    }
  }

  lemma ReportKeepsAttempted(bucket: Buckets, w: World, e: Event, v: Version)
    requires e.Report?
    ensures Attempted(Apply(bucket, w, e).db, v) == Attempted(w.db, v)
  {
    assert Apply(bucket, w, e).db.attempts.Keys == w.db.attempts.Keys;
  }

  lemma DeleteKeepsAttempted(bucket: Buckets, w: World, e: Event, v: Version)
    requires e.DeleteServer? && e.server !in Attempted(w.db, v)
    ensures Attempted(Apply(bucket, w, e).db, v) == Attempted(w.db, v)
  {
    var db' := Apply(bucket, w, e).db;
    forall x | x in Attempted(w.db, v) ensures x in Attempted(db', v) {
      assert (v, x) in db'.attempts;
    }
  }

  lemma SameAttemptedKeepsCohort(bucket: Buckets, w: World, w': World, v: Version, fleet: seq<Candidate>, a: nat)
    requires CohortInv(bucket, w, v, fleet, a)
    requires Attempted(w'.db, v) == Attempted(w.db, v) && w'.reach == w.reach
    requires w'.job == w.job || !w'.job.Running? || w'.job.pc.Open?
    ensures CohortInv(bucket, w', v, fleet, a)
  {
    hide Ids, Distinct, Cut, CohortSize, ViewOf, FirstHosts, Attempted;
    if w.job.Running? && w'.job == w.job && w.job.pc.Offer? && w.job.pc.v == v {
      var n: nat :| PartWay(bucket, w, fleet, n);
      assert PartWay(bucket, w', fleet, n);
    }
  }

  lemma EventKeepsCohort(bucket: Buckets, w: World, e: Event, v: Version, fleet: seq<Candidate>, a: nat)
    returns (b: nat)
    requires Distinct(fleet) && FixedFleet(w, v, fleet) && KeepsFleet(e, fleet) && CohortInv(bucket, w, v, fleet, a)
    ensures a <= b && CohortInv(bucket, Apply(bucket, w, e), v, fleet, b)
  {
    hide Ids, Distinct, Cut, CohortSize, ViewOf, FirstHosts, Attempted, JobStep, PartWay;
    b := a;
    var w' := Apply(bucket, w, e);
    match e
    case JobAccess => if w.job.Running? { b := AccessKeepsCohort(bucket, w, v, fleet, a); }
    case Report(_, _, _, _) =>
      ReportKeepsAttempted(bucket, w, e, v);
      SameAttemptedKeepsCohort(bucket, w, w', v, fleet, a);
    case DeleteServer(s) =>
      FirstHostsSize(bucket, v, fleet, a);
      DeleteKeepsAttempted(bucket, w, e, v);
      SameAttemptedKeepsCohort(bucket, w, w', v, fleet, a);
    case _ => SameAttemptedKeepsCohort(bucket, w, w', v, fleet, a);
  }

  ghost predicate FleetRun(bucket: Buckets, w: World, es: seq<Event>, v: Version, fleet: seq<Candidate>) {
    && (forall n :: 0 <= n <= |es| ==> FixedFleet(Run(bucket, w, es[..n]), v, fleet))
    && (forall n :: 0 <= n < |es| ==> KeepsFleet(es[n], fleet))
  }

  /** Cohort refinement over runs. Against a fixed fleet, in every interleaving of the job with
      host reports, setting changes, version changes and crashes, the attempted hosts of a rollout
      are the first `a` hosts of the whole fleet in stable bucket order, and `a` is never more
      than the largest cohort any step was cut for. */
  lemma {:induction false} CohortRefinement(
      bucket: Buckets, w: World, es: seq<Event>, v: Version, fleet: seq<Candidate>)
    returns (a: nat)
    requires Initial(w) && Distinct(fleet) && FleetRun(bucket, w, es, v, fleet)
    ensures CohortInv(bucket, Run(bucket, w, es), v, fleet, a)
    decreases |es|
  {
    hide Ids, Distinct, Cut, CohortSize, FirstHosts, Apply, CutInv, FixedFleet, KeepsFleet;
    if es == [] {
      a := 0;
      NothingAttempted(bucket, w, v, fleet);
    } else {
      var front := es[..|es| - 1];
      FleetRunFront(bucket, w, es, v, fleet);
      var before := CohortRefinement(bucket, w, front, v, fleet);
      a := EventKeepsCohort(bucket, Run(bucket, w, front), es[|es| - 1], v, fleet, before);
    }
  }

  lemma FleetRunFront(bucket: Buckets, w: World, es: seq<Event>, v: Version, fleet: seq<Candidate>)
    requires es != [] && FleetRun(bucket, w, es, v, fleet)
    ensures FleetRun(bucket, w, es[..|es| - 1], v, fleet)
    ensures FixedFleet(Run(bucket, w, es[..|es| - 1]), v, fleet) && KeepsFleet(es[|es| - 1], fleet)
  {
    hide FixedFleet, KeepsFleet, Run;
    var front := es[..|es| - 1];
    forall n | 0 <= n <= |front| ensures FixedFleet(Run(bucket, w, front[..n]), v, fleet) {
      assert front[..n] == es[..n];
    }
    assert front[..|front|] == front;
  }

  lemma NothingAttempted(bucket: Buckets, w: World, v: Version, fleet: seq<Candidate>)
    requires Initial(w)
    ensures CohortInv(bucket, w, v, fleet, 0)
  {
    hide SortByBucket, CohortSize;
    assert SortByBucket(bucket, v, fleet)[..0] == [];
  }

  /** The access that records a step. */
  ghost predicate Recording(w: World, v: Version) {
    w.job.Running? && w.job.pc.Offer? && w.job.pc.v == v && w.job.pc.todo == []
  }

  /** Recording a step: the access that writes `percent` finds the attempted hosts to be exactly
      what the whole cut makes of the prefix it started from. That is the direct definition, the
      first `CohortSize(fleet, percent)` hosts, if and only if no more than these had been
      attempted, and they all had or the hosts counted twice enlarge the cohort in full. */
  lemma RecordedStepCoversCohort(bucket: Buckets, w: World, v: Version, fleet: seq<Candidate>, a: nat)
    requires Distinct(fleet) && CohortInv(bucket, w, v, fleet, a)
    requires Recording(w, v) && v in w.db.rollouts
    ensures w.job.pc.seen <= |fleet| && w.job.pc.seen <= CohortSize(|fleet|, Reach(w, v))
    ensures ViewOf(fleet, FirstHosts(bucket, v, fleet, w.job.pc.seen), w.job.pc.cands)
    ensures var w', pc := JobStep(bucket, w), w.job.pc;
            var k, size := |Again(bucket, v, fleet, pc.seen, pc.cands)|, CohortSize(|fleet|, pc.step);
            && v in w'.db.rollouts && w'.db.rollouts[v].percent == pc.step
            && Attempted(w'.db, v) == AttemptedAfter(bucket, v, fleet, pc.seen, pc.cands, pc.step)
            && (Attempted(w'.db, v) == FirstHosts(bucket, v, fleet, size)
                <==> pc.seen == size || (pc.seen < size && CohortSize(|fleet| + k, pc.step) == size + k))
  {
    hide Ids, Distinct, Cut, CohortSize, ViewOf, FirstHosts, Attempted, Again;
    var pc := w.job.pc;
    var n: nat :| PartWay(bucket, w, fleet, n);
    var cut := Cut(bucket, v, pc.cands, pc.seen, pc.step);
    assert n == |cut| && cut[..n] == cut;
    QuietAccess(bucket, w, v);
    CutIsDirect(bucket, v, fleet, pc.seen, pc.cands, pc.step);
  }
}
