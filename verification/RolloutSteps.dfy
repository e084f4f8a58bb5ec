/** The steps of a rollout over whole runs against a fixed fleet: each recorded step covers exactly
    the cohort of its percentage, and in between the attempted hosts stay between two cohorts. */
module RolloutSteps {
  import opened CohortOrder
  import opened CollectorRollout
  import opened RolloutSafety
  import opened RolloutCohorts

  ghost function RowPercent(db: Db, v: Version): int { if v in db.rollouts then db.rollouts[v].percent else 0 }

  /** The step a rollout at `percent` takes next; `percent` itself when there is none. */
  function StepCap(percent: int, canary: nat): (p: int)
    ensures p >= percent
  {
    match StepAfter(percent, canary) case Percent(step) => step case NoStep => percent
  }

  ghost predicate KeepsCanary(es: seq<Event>, canary: nat) {
    forall i :: 0 <= i < |es| ==> es[i].Change? ==> es[i].env.canary == canary
  }

  // ---------------------------------------------------------------- how far cohorts are cut

  /** No cohort has been cut beyond the step after the recorded one. */
  ghost predicate ReachInv(w: World, v: Version, canary: nat) {
    && w.env.canary == canary
    && (w.job.Running? ==> w.job.pass.canary == canary)
    && (v !in w.db.rollouts ==> Reach(w, v) == 0)
    && (IsRolling(w.db, v) ==> RowPercent(w.db, v) <= Reach(w, v) <= StepCap(RowPercent(w.db, v), canary))
    && (w.job.Running? && w.job.pc.Offer? && w.job.pc.v == v ==> w.job.pc.step == Reach(w, v))
  }

  /** What a pass may do to a rollout row. */
  ghost predicate RowOutline(w: World, db: Db, v: Version)
    requires w.job.Running?
  {
    var pc := w.job.pc;
    && (v in w.db.rollouts ==> v in db.rollouts)
    && (v in db.rollouts && v !in w.db.rollouts ==> pc == Create(v) && RowPercent(db, v) == 0)
    && (IsRolling(db, v) && v in w.db.rollouts ==> IsRolling(w.db, v))
    && (RowPercent(db, v) != RowPercent(w.db, v) ==> (pc.Finish? && pc.v == v) || Recording(w, v))
    && (IsRolling(db, v) && RowPercent(db, v) != RowPercent(w.db, v) ==> Recording(w, v))
    && (pc.Finish? && pc.v == v ==> RowPercent(db, v) == pc.percent)
    && (Recording(w, v) ==> RowPercent(db, v) == pc.step)
  }

  lemma WrittenOutline(w: World, v: Version)
    requires JobInv(w) && w.job.Running?
    ensures RowOutline(w, Written(w), v)
  {
    hide GateTripped, StepHealth, MayWiden, MayFollow, NoneOffered, NoneRolling, Live;
    assert w.job.pc.Create? ==> w.job.pc.v !in w.db.rollouts;
  }

  lemma AccessOutline(bucket: Buckets, w: World, v: Version)
    requires JobInv(w) && w.job.Running?
    ensures RowOutline(w, JobStep(bucket, w).db, v)
    ensures var w' := JobStep(bucket, w);
            w'.env == w.env && (w'.job.Running? ==> w'.job.pass == w.job.pass)
  {
    StepWrites(bucket, w);
    WrittenOutline(w, v);
    AccessKeepsSettings(bucket, w);
    hide *;
  }

  lemma AccessKeepsSettings(bucket: Buckets, w: World)
    requires w.job.Running?
    ensures var w' := JobStep(bucket, w);
            w'.env == w.env && (w'.job.Running? ==> w'.job.pass == w.job.pass)
  {
    hide GateTripped, StepHealth, Cut, StepAfter, Attempted, FindRolling, DwellOk, CloseRollout, WithdrawInactive,
      FailSilent, SetRow;
  }

  lemma OfferEntry(bucket: Buckets, w: World, v: Version)
    requires w.job.Running?
    requires var w' := JobStep(bucket, w); w'.job.Running? && w'.job.pc.Offer? && w'.job.pc.v == v
    ensures var pc, pc' := w.job.pc, JobStep(bucket, w).job.pc;
            || (pc.ReadSeen? && pc.v == v && StepAfter(pc.row.percent, w.job.pass.canary) == Percent(pc'.step)
                && Reach(JobStep(bucket, w), v) == Max(Reach(w, v), pc'.step))
            || (pc.Offer? && pc.v == v && pc'.step == pc.step && pc'.seen == pc.seen && pc'.cands == pc.cands)
  {
    hide GateTripped, StepHealth, Cut, MayWiden, MayFollow, Paced, StepsInv, StepAfter, Attempted, FindRolling,
      NoneOffered, NoneRolling, DwellOk, CloseRollout, WithdrawInactive, FailSilent, SetRow;
  }

  lemma SeenReaches(bucket: Buckets, w: World, v: Version, canary: nat)
    requires JobInv(w) && ReachInv(w, v, canary) && w.job.Running? && w.job.pc.ReadSeen? && w.job.pc.v == v
    ensures ReachInv(JobStep(bucket, w), v, canary)
  {
    hide GateTripped, StepHealth, Cut, MayWiden, MayFollow, Paced, StepsInv, StepAfter, Attempted, FindRolling,
      NoneOffered, NoneRolling, DwellOk, CloseRollout, WithdrawInactive, FailSilent, SetRow;
  }

  lemma AccessKeepsReach(bucket: Buckets, w: World, v: Version, canary: nat)
    requires JobInv(w) && ReachInv(w, v, canary) && w.job.Running?
    ensures ReachInv(JobStep(bucket, w), v, canary)
  {
    hide JobStep, StepCap, JobInv;
    AccessOutline(bucket, w, v);
    if w.job.pc.ReadSeen? && w.job.pc.v == v {
      SeenReaches(bucket, w, v, canary);
    } else {
      var w' := JobStep(bucket, w);
      if w.job.pc.Offer? && w.job.pc.v == v && w.job.pc.todo != [] {
        OfferKeepsReach(bucket, w, v);
      } else {
        QuietAccess(bucket, w, v);
      }
      if w'.job.Running? && w'.job.pc.Offer? && w'.job.pc.v == v {
        OfferEntry(bucket, w, v);
      }
    }
  }

  lemma OfferKeepsReach(bucket: Buckets, w: World, v: Version)
    requires w.job.Running? && w.job.pc.Offer?
    ensures Reach(JobStep(bucket, w), v) == Reach(w, v)
  {
  }

  lemma EventKeepsReach(bucket: Buckets, w: World, e: Event, v: Version, canary: nat)
    requires Inv(w) && ReachInv(w, v, canary) && (e.Change? ==> e.env.canary == canary)
    ensures ReachInv(Apply(bucket, w, e), v, canary)
  {
    hide JobStep, JobInv, StepCap;
    if e.JobAccess? && w.job.Running? {
      AccessKeepsReach(bucket, w, v, canary);
    }
  }

  lemma {:induction false} RunKeepsReach(bucket: Buckets, w: World, es: seq<Event>, v: Version)
    requires Initial(w) && KeepsCanary(es, w.env.canary)
    ensures ReachInv(Run(bucket, w, es), v, w.env.canary)
    decreases |es|
  {
    hide Apply, Inv, ReachInv;
    if es == [] {
      NothingReached(w, v);
    } else {
      var front := es[..|es| - 1];
      InitialInv(w);
      RunKeepsInv(bucket, w, front);
      RunKeepsReach(bucket, w, front, v);
      EventKeepsReach(bucket, Run(bucket, w, front), es[|es| - 1], v, w.env.canary);
    }
  }

  lemma NothingReached(w: World, v: Version)
    requires Initial(w)
    ensures ReachInv(w, v, w.env.canary)
  {
  }

  // ---------------------------------------------------------------- after every step

  /** When a recorded step is the direct definition. In every run from an empty table against a
      fixed fleet, with any interleaving of reports, setting changes other than of the canary,
      version changes and crashes: when a step is recorded, no more hosts than its cohort had been
      attempted, and now the attempted ones are the first `CohortSize(fleet, percent)` of the fleet
      in stable bucket order if and only if all of these had been, or the hosts counted twice
      enlarge the cohort in full - so whenever there are none of those, and always at 100 percent. */
  lemma EveryStepIsDirect(bucket: Buckets, w: World, es: seq<Event>, v: Version, fleet: seq<Candidate>)
    requires Initial(w) && Distinct(fleet) && FleetRun(bucket, w, es, v, fleet) && KeepsCanary(es, w.env.canary)
    requires Recording(Run(bucket, w, es), v)
    ensures var t := Run(bucket, w, es);
            var pc, w' := t.job.pc, Apply(bucket, t, JobAccess);
            && v in w'.db.rollouts && w'.db.rollouts[v].percent == pc.step
            && pc.seen <= CohortSize(|fleet|, pc.step) <= |fleet|
            && (var k, size := |Again(bucket, v, fleet, pc.seen, pc.cands)|, CohortSize(|fleet|, pc.step);
                Attempted(w'.db, v) == FirstHosts(bucket, v, fleet, size)
                <==> pc.seen == size || CohortSize(|fleet| + k, pc.step) == size + k)
            && (Again(bucket, v, fleet, pc.seen, pc.cands) == {} || pc.step >= 100 ==>
                  Attempted(w'.db, v) == FirstHosts(bucket, v, fleet, CohortSize(|fleet|, pc.step)))
  {
    hide Run, CohortInv, JobStep, Again, FirstHosts, CohortSize, Attempted, ViewOf, Distinct;
    var t := Run(bucket, w, es);
    InitialInv(w);
    RunKeepsInv(bucket, w, es);
    RunKeepsReach(bucket, w, es, v);
    var a := CohortRefinement(bucket, w, es, v, fleet);
    RecordedStepCoversCohort(bucket, t, v, fleet, a);
    var pc := t.job.pc;
    if Again(bucket, v, fleet, pc.seen, pc.cands) == {} || pc.step >= 100 {
      CutIsDirectWhen(|fleet|, |Again(bucket, v, fleet, pc.seen, pc.cands)|, pc.step);
    }
  }

  // ---------------------------------------------------------------- at every moment

  /** A pass that reads the candidates is shown no host of `v` that has been attempted. */
  ghost predicate FreshCandidates(w: World, v: Version) {
    w.job.Running? && w.job.pc.Widen? && w.job.pc.v == v ==> Ids(w.env.candidates) !! Attempted(w.db, v)
  }

  ghost predicate FreshRun(bucket: Buckets, w: World, es: seq<Event>, v: Version) {
    forall n :: 0 <= n <= |es| ==> FreshCandidates(Run(bucket, w, es[..n]), v)
  }

  /** The cohort of the recorded percentage has been attempted, and the pass will keep it so. */
  ghost predicate CoverInv(bucket: Buckets, w: World, v: Version, fleet: seq<Candidate>, a: nat)
    requires a <= |fleet|
  {
    && CohortSize(|fleet|, RowPercent(w.db, v)) <= a
    && (w.job.Running? ==>
          match w.job.pc
          case ReadSeen(u, _, cands) => u == v ==> Ids(cands) !! Attempted(w.db, v)
          case Offer(u, _, _, _, cands, seen) =>
            u == v ==> seen <= |fleet| && Again(bucket, v, fleet, seen, cands) == {}
          case Finish(u, percent) => u == v ==> CohortSize(|fleet|, percent) <= a
          case _ => true)
  }

  lemma WidenReads(bucket: Buckets, w: World, v: Version)
    requires w.job.Running?
    ensures var w' := JobStep(bucket, w);
            w'.job.Running? && w'.job.pc.ReadSeen? && w'.job.pc.v == v ==>
              w.job.pc.Widen? && w.job.pc.v == v && w'.job.pc.cands == w.env.candidates
    ensures var w' := JobStep(bucket, w);
            w'.job.Running? && w'.job.pc.Finish? && w'.job.pc.v == v ==> w.job.pc.ReadSeen? && w.job.pc.v == v
  {
    hide GateTripped, StepHealth, Cut, MayWiden, MayFollow, Paced, StepsInv, StepAfter, Attempted, FindRolling,
      NoneOffered, NoneRolling, DwellOk, CloseRollout, WithdrawInactive, FailSilent, SetRow;
  }

  /** After the attempted hosts are read: nothing is left to offer, or the cut is made. */
  lemma SeenCovers(bucket: Buckets, w: World, v: Version, fleet: seq<Candidate>, a: nat)
    requires JobInv(w) && Distinct(fleet) && CohortInv(bucket, w, v, fleet, a) && CoverInv(bucket, w, v, fleet, a)
    requires w.job.Running? && w.job.pc.ReadSeen? && w.job.pc.v == v
    ensures CoverInv(bucket, JobStep(bucket, w), v, fleet, a)
  {
    hide Cut, MayWiden, MayFollow, Paced, StepsInv, StepAfter, Attempted, NoneOffered, FirstHosts, CohortSize,
      Distinct, Ids, ViewOf, GateTripped, StepHealth;
    FirstHostsSize(bucket, v, fleet, a);
    if w.job.pc.cands == [] {
      AllAttempted(bucket, v, fleet, a);
    }
  }

  lemma AllAttempted(bucket: Buckets, v: Version, fleet: seq<Candidate>, a: nat)
    requires Distinct(fleet) && a <= |fleet| && ViewOf(fleet, FirstHosts(bucket, v, fleet, a), [])
    ensures a == |fleet| == CohortSize(|fleet|, 100)
  {
    NoIds();
    FirstHostsSize(bucket, v, fleet, a);
    IdsSize(fleet);
    SubsetSize(Ids(fleet), FirstHosts(bucket, v, fleet, a));
  }

  lemma RecordCovers(bucket: Buckets, w: World, v: Version, fleet: seq<Candidate>, a: nat)
    requires Inv(w) && Distinct(fleet) && CohortInv(bucket, w, v, fleet, a) && CoverInv(bucket, w, v, fleet, a)
    requires Recording(w, v)
    ensures CohortSize(|fleet|, w.job.pc.step) <= a
  {
    hide Ids, Distinct, Cut, CohortSize, ViewOf, FirstHosts, Attempted, Again;
    var pc := w.job.pc;
    var n: nat :| PartWay(bucket, w, fleet, n);
    var cut := Cut(bucket, v, pc.cands, pc.seen, pc.step);
    assert n == |cut| && cut[..n] == cut;
    var b := StepReaches(bucket, v, fleet, pc.seen, pc.cands, pc.step);
    FirstHostsInjective(bucket, v, fleet, a, b);
  }

  lemma AccessKeepsCover(bucket: Buckets, w: World, v: Version, fleet: seq<Candidate>, a: nat, b: nat)
    requires Inv(w) && Distinct(fleet) && CohortInv(bucket, w, v, fleet, a) && CoverInv(bucket, w, v, fleet, a)
    requires FreshCandidates(w, v) && w.job.Running? && a <= b <= |fleet|
    ensures CoverInv(bucket, JobStep(bucket, w), v, fleet, b)
  {
    hide Ids, Distinct, Cut, CohortSize, ViewOf, FirstHosts, Attempted, Again, JobStep, JobInv, StepsInv, OneRolling,
      OffersLive, CohortInv;
    var w' := JobStep(bucket, w);
    AccessOutline(bucket, w, v);
    WidenReads(bucket, w, v);
    if w.job.pc.ReadSeen? && w.job.pc.v == v {
      SeenCovers(bucket, w, v, fleet, a);
    } else {
      if w'.job.Running? && w'.job.pc.Offer? && w'.job.pc.v == v {
        OfferEntry(bucket, w, v);
      }
      if Recording(w, v) {
        RecordCovers(bucket, w, v, fleet, a);
      }
      if w'.job.Running? && w'.job.pc.ReadSeen? && w'.job.pc.v == v {
        QuietAccess(bucket, w, v);
      }
    }
  }

  lemma EventKeepsCover(bucket: Buckets, w: World, e: Event, v: Version, fleet: seq<Candidate>, a: nat) returns (b: nat)
    requires Inv(w) && Distinct(fleet) && FixedFleet(w, v, fleet) && KeepsFleet(e, fleet) && FreshCandidates(w, v)
    requires CohortInv(bucket, w, v, fleet, a) && CoverInv(bucket, w, v, fleet, a)
    ensures CohortInv(bucket, Apply(bucket, w, e), v, fleet, b) && CoverInv(bucket, Apply(bucket, w, e), v, fleet, b)
  {
    hide Ids, Distinct, Cut, CohortSize, ViewOf, FirstHosts, Attempted, Again, JobStep, JobInv, StepsInv, OneRolling,
      OffersLive, CohortInv;
    b := EventKeepsCohort(bucket, w, e, v, fleet, a);
    PrefixBound(bucket, Apply(bucket, w, e), v, fleet, b);
    match e
    case JobAccess => if w.job.Running? { AccessKeepsCover(bucket, w, v, fleet, a, b); }
    case Report(_, _, _, _) => ReportKeepsAttempted(bucket, w, e, v);
    case DeleteServer(s) =>
      OutsideFleet(bucket, w, v, fleet, a, s);
      DeleteKeepsAttempted(bucket, w, e, v);
    case _ =>
  }

  lemma PrefixBound(bucket: Buckets, w: World, v: Version, fleet: seq<Candidate>, a: nat)
    requires CohortInv(bucket, w, v, fleet, a)
    ensures a <= |fleet|
  {
  }

  lemma OutsideFleet(bucket: Buckets, w: World, v: Version, fleet: seq<Candidate>, a: nat, s: ServerId)
    requires Distinct(fleet) && CohortInv(bucket, w, v, fleet, a) && s !in Ids(fleet)
    ensures s !in Attempted(w.db, v)
  {
    FirstHostsSize(bucket, v, fleet, a);
  }

  /** At every moment of every run in which a pass is shown no host twice, the attempted hosts are
      a prefix of the fleet that covers the cohort of the recorded percentage and does not go
      beyond the largest cohort cut; while the canary stands, that is the one of the next step. */
  lemma {:induction false} CohortSandwich(bucket: Buckets, w: World, es: seq<Event>, v: Version, fleet: seq<Candidate>)
    returns (a: nat)
    requires Initial(w) && Distinct(fleet) && FleetRun(bucket, w, es, v, fleet) && FreshRun(bucket, w, es, v)
    ensures var t := Run(bucket, w, es);
            && CohortInv(bucket, t, v, fleet, a) && CoverInv(bucket, t, v, fleet, a)
            && Attempted(t.db, v) == FirstHosts(bucket, v, fleet, a)
            && CohortSize(|fleet|, RowPercent(t.db, v)) <= a <= CohortSize(|fleet|, Reach(t, v))
            && (KeepsCanary(es, w.env.canary) && IsRolling(t.db, v) ==>
                  a <= CohortSize(|fleet|, StepCap(RowPercent(t.db, v), w.env.canary)))
    decreases |es|
  {
    hide Ids, Distinct, Cut, CohortSize, FirstHosts, Apply, FixedFleet, KeepsFleet, Inv, FreshCandidates, CutInv,
      Attempted, StepCap, Again, ViewOf;
    if es == [] {
      a := 0;
      NothingAttempted(bucket, w, v, fleet);
      NothingCovered(bucket, w, v, fleet);
    } else {
      var front := es[..|es| - 1];
      FleetRunFront(bucket, w, es, v, fleet);
      FreshRunFront(bucket, w, es, v);
      InitialInv(w);
      RunKeepsInv(bucket, w, front);
      var before := CohortSandwich(bucket, w, front, v, fleet);
      a := EventKeepsCover(bucket, Run(bucket, w, front), es[|es| - 1], v, fleet, before);
    }
    if KeepsCanary(es, w.env.canary) {
      var t := Run(bucket, w, es);
      RunKeepsReach(bucket, w, es, v);
      if IsRolling(t.db, v) {
        CohortSizeMonotone(|fleet|, Reach(t, v), StepCap(RowPercent(t.db, v), w.env.canary));
      }
    }
  }

  lemma NothingCovered(bucket: Buckets, w: World, v: Version, fleet: seq<Candidate>)
    requires Initial(w)
    ensures CoverInv(bucket, w, v, fleet, 0)
  {
  }

  lemma FreshRunFront(bucket: Buckets, w: World, es: seq<Event>, v: Version)
    requires es != [] && FreshRun(bucket, w, es, v)
    ensures FreshRun(bucket, w, es[..|es| - 1], v)
    ensures FreshCandidates(Run(bucket, w, es[..|es| - 1]), v)
  {
    hide FreshCandidates, Run;
    var front := es[..|es| - 1];
    forall n | 0 <= n <= |front| ensures FreshCandidates(Run(bucket, w, front[..n]), v) {
      assert front[..n] == es[..n];
    }
  }
}
