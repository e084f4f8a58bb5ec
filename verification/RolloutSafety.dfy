/** What the rollout promises over whole runs: ended rollouts stay ended, offers are made only on
    evidence, steps are paced and bounded, and the cohorts are prefixes of one fixed order. */
module RolloutSafety {
  import opened Wrappers
  import opened CohortOrder
  import opened CollectorRollout

  // ---------------------------------------------------------------- finality

  lemma WrittenSparesEnded(w: World, v: Version)
    requires JobInv(w) && w.job.Running? && v in w.db.rollouts && !w.db.rollouts[v].status.Rolling?
    ensures v in Written(w).rollouts && Written(w).rollouts[v] == w.db.rollouts[v]
    ensures forall k :: k in Written(w).attempts && k.0 == v ==> k in w.db.attempts
  {
    hide GateTripped, StepHealth, MayWiden, MayFollow, NoneOffered;
  }

  lemma AccessSparesEnded(bucket: Buckets, w: World, v: Version)
    requires JobInv(w) && w.job.Running? && v in w.db.rollouts && !w.db.rollouts[v].status.Rolling?
    ensures var db' := JobStep(bucket, w).db;
            && v in db'.rollouts && db'.rollouts[v] == w.db.rollouts[v]
            && forall k :: k in db'.attempts && k.0 == v ==> k in w.db.attempts
  {
    hide JobStep, JobInv, Written;
    StepWrites(bucket, w);
    WrittenSparesEnded(w, v);
  }

  lemma EndedStaysEnded(bucket: Buckets, w: World, e: Event, v: Version)
    requires Inv(w) && v in w.db.rollouts && !w.db.rollouts[v].status.Rolling?
    ensures var w' := Apply(bucket, w, e);
            && v in w'.db.rollouts && w'.db.rollouts[v] == w.db.rollouts[v]
            && Attempted(w'.db, v) <= Attempted(w.db, v)
  {
    hide JobStep, JobInv, OneRolling, OffersLive, StepsInv;
    if e.JobAccess? && w.job.Running? {
      AccessSparesEnded(bucket, w, v);
    }
  }

  /** A rollout that has left `rolling` is final: over every further run its row does not change,
      it gains no attempt, and none of its attempts is `offered`; and at most one rollout rolls. */
  lemma {:induction false} Finality(bucket: Buckets, w: World, es: seq<Event>, v: Version)
    requires Inv(w) && v in w.db.rollouts && !w.db.rollouts[v].status.Rolling?
    ensures var w' := Run(bucket, w, es);
            && v in w'.db.rollouts && w'.db.rollouts[v] == w.db.rollouts[v]
            && Attempted(w'.db, v) <= Attempted(w.db, v)
            && NoneOffered(w'.db, v)
            && OneRolling(w'.db)
    decreases |es|
  {
    hide Apply, JobInv, StepsInv, Attempted;
    RunKeepsInv(bucket, w, es);
    if es == [] {
    } else {
      var before := Run(bucket, w, es[..|es| - 1]);
      Finality(bucket, w, es[..|es| - 1], v);
      RunKeepsInv(bucket, w, es[..|es| - 1]);
      EndedStaysEnded(bucket, before, es[|es| - 1], v);
    }
  }

  /** The rollout `v` of `w` has ended in `db`: it has its reason - the gate, the settings, or
      nothing left to wait for - and what was outstanding is settled. */
  ghost predicate Exited(w: World, db: Db, v: Version)
    requires w.job.Running?
  {
    && v in db.rollouts
    && db.rollouts[v].completedAt == Some(w.job.pass.now)
    && (db.rollouts[v].status.Halted? ==> GateTripped(StepHealth(w.job.at, v)))
    && (db.rollouts[v].status.Cancelled? ==> !w.job.pass.autoUpdate || w.job.pass.target != Some(v))
    && (db.rollouts[v].status.Complete? ==> NoneOffered(w.db, v))
    && db.attempts.Keys == w.db.attempts.Keys
    && forall k :: k in w.db.attempts ==>
         db.attempts[k] ==
         if k.0 == v && w.db.attempts[k].status.Offered?
         then w.db.attempts[k].(status := Withdrawn) else w.db.attempts[k]
  }

  lemma WrittenExits(w: World, v: Version)
    requires JobInv(w) && w.job.Running? && IsRolling(w.db, v) && !IsRolling(Written(w), v)
    ensures Exited(w, Written(w), v)
  {
    hide GateTripped, StepHealth, MayWiden, MayFollow;
  }

  /** Every exit from `rolling` is taken by the job and settles what was outstanding: offered
      attempts of that rollout become `Withdrawn` in the same write, every other attempt is left
      alone, and the exit has its reason. */
  lemma ExitSettles(bucket: Buckets, w: World, e: Event, v: Version)
    requires JobInv(w) && IsRolling(w.db, v) && !IsRolling(Apply(bucket, w, e).db, v)
    ensures e.JobAccess? && w.job.Running?
    ensures Exited(w, Apply(bucket, w, e).db, v)
  {
    hide JobStep, JobInv, Written, Exited;
    if w.job.Running? && e.JobAccess? {
      StepWrites(bucket, w);
      WrittenExits(w, v);
    }
  }

  // ---------------------------------------------------------------- offers

  lemma WrittenOffers(w: World, k: Key)
    requires JobInv(w) && w.job.Running? && k in Written(w).attempts
    ensures Written(w).attempts[k].status.Offered? && (k in w.db.attempts ==> !w.db.attempts[k].status.Offered?) ==>
              && k !in w.db.attempts && w.job.pc.Offer? && k.0 == w.job.pc.v && IsRolling(w.db, k.0)
              && w.job.pc.todo != [] && w.job.pc.todo[0].server == k.1 && MayWiden(w.job.at, k.0, w.job.pass.now)
    ensures k !in w.db.attempts ==>
              && w.job.pc.Offer? && k.0 == w.job.pc.v && w.job.pc.todo != []
              && k.1 == w.job.pc.todo[0].server && k.1 !in w.env.failing
              && Written(w).attempts[k]
                 == Attempt(Offered, w.job.pc.todo[0].currentVersion, w.job.pass.now, None)
  {
    hide GateTripped, StepHealth, MayWiden, MayFollow, NoneOffered, NoneRolling;
  }

  /** The job is the only writer of `offered`: an attempt that is offered after an event and was
      not before is a new row, created by the job for the rolling rollout's current host, in a
      pass that had judged the step free of pending hosts, healthy and past its dwell time. */
  lemma OffersOnlyOnEvidence(bucket: Buckets, w: World, e: Event, k: Key)
    requires JobInv(w)
    requires k in Apply(bucket, w, e).db.attempts && Apply(bucket, w, e).db.attempts[k].status.Offered?
    requires k in w.db.attempts ==> !w.db.attempts[k].status.Offered?
    ensures k !in w.db.attempts
    ensures e.JobAccess? && w.job.Running? && w.job.pc.Offer?
    ensures k.0 == w.job.pc.v && IsRolling(w.db, k.0)
    ensures w.job.pc.todo != [] && w.job.pc.todo[0].server == k.1
    ensures MayWiden(w.job.at, k.0, w.job.pass.now)
  {
    hide JobStep, JobInv, Written, MayWiden;
    if e.JobAccess? && w.job.Running? {
      StepWrites(bucket, w);
      WrittenOffers(w, k);
    }
  }

  /** No event but a job's offer adds an attempt row. */
  lemma AttemptsOnlyFromOffers(bucket: Buckets, w: World, e: Event, k: Key)
    requires JobInv(w) && k !in w.db.attempts && k in Apply(bucket, w, e).db.attempts
    ensures e.JobAccess? && w.job.Running? && w.job.pc.Offer?
    ensures k.0 == w.job.pc.v && w.job.pc.todo != [] && k.1 == w.job.pc.todo[0].server && k.1 !in w.env.failing
    ensures Apply(bucket, w, e).db.attempts[k]
            == Attempt(Offered, w.job.pc.todo[0].currentVersion, w.job.pass.now, None)
  {
    hide JobStep, JobInv, Written, MayWiden;
    if e.JobAccess? && w.job.Running? {
      StepWrites(bucket, w);
      WrittenOffers(w, k);
    }
  }

  predicate PastJudge(pc: Pc) { pc.Widen? || pc.ReadSeen? || pc.Offer? }

  /** From `w` to `t` a pass is kept past its judgement, or makes it. */
  ghost predicate KeepsJudgement(w: World, t: World) {
    t.job.Running? && PastJudge(t.job.pc) ==>
      && w.job.Running? && t.job.pass == w.job.pass
      && (w.job.pc.Judge? || PastJudge(w.job.pc)) && t.job.pc.v == w.job.pc.v
      && t.job.at == if w.job.pc.Judge? then w.db else w.job.at
  }

  lemma AccessKeepsJudgement(bucket: Buckets, w: World)
    requires w.job.Running?
    ensures KeepsJudgement(w, JobStep(bucket, w))
  {
    hide GateTripped, StepHealth, Cut, Attempted, StepAfter, CloseRollout, WithdrawInactive, FailSilent, SetRow,
      FindRolling, DwellOk;
  }

  lemma JudgementIsKept(bucket: Buckets, w: World, e: Event)
    ensures KeepsJudgement(w, Apply(bucket, w, e))
  {
    hide JobStep, KeepsJudgement;
    if e.JobAccess? && w.job.Running? {
      AccessKeepsJudgement(bucket, w);
    } else {
      OthersKeepJudgement(bucket, w, e);
    }
  }

  lemma OthersKeepJudgement(bucket: Buckets, w: World, e: Event)
    requires e.JobAccess? ==> !w.job.Running?
    ensures KeepsJudgement(w, Apply(bucket, w, e))
  {
    hide JobStep;
  }

  /** The judgement a pass acts on is the true state of the database at an earlier moment of the
      same pass. */
  lemma {:induction false} JudgedInThisRun(bucket: Buckets, w: World, es: seq<Event>) returns (n: nat)
    requires w.job.Idle?
    requires var w' := Run(bucket, w, es); w'.job.Running? && PastJudge(w'.job.pc)
    ensures n < |es|
    ensures var w', j := Run(bucket, w, es), Run(bucket, w, es[..n]);
            && j.job.Running? && j.job.pc.Judge? && j.job.pc.v == w'.job.pc.v
            && j.job.pass == w'.job.pass && j.db == w'.job.at
    decreases |es|
  {
    hide Apply;
    var front := es[..|es| - 1];
    JudgementIsKept(bucket, Run(bucket, w, front), es[|es| - 1]);
    if Run(bucket, w, front).job.pc.Judge? {
      n := |front|;
    } else {
      n := JudgedInThisRun(bucket, w, front);
      assert front[..n] == es[..n];
    }
  }

  // ---------------------------------------------------------------- pace

  /** Steps climb strictly, keep the dwell time between them, and there are at most
      `1 + |PERCENT_STEPS|` of them: each uses up one of the percentages still above. */
  lemma {:induction false} PaceBounds(s: seq<StepRecord>)
    requires Paced(s)
    ensures s != [] ==> |s| + CountAbove(PERCENT_STEPS, s[|s| - 1].percent) <= 1 + |PERCENT_STEPS|
    ensures |s| <= 1 + |PERCENT_STEPS|
    ensures forall i, j :: 0 <= i < j < |s| ==> Apart(s, i, j)
  {
    hide CountAbove, Apart;
    if |s| <= 1 {
      FirstBounds(s);
    } else {
      PaceBounds(s[..|s| - 1]);
      LastBounds(s);
      forall i, j | 0 <= i < j < |s| ensures Apart(s, i, j) {
        if j < |s| - 1 {
          ApartBefore(s, i, j);
        } else {
          LastApart(s, i);
        }
      }
    }
  }

  ghost predicate Apart(s: seq<StepRecord>, i: nat, j: nat)
    requires i < j < |s|
  {
    s[i].percent < s[j].percent && s[j].at - s[i].at >= (j - i) * STEP_DWELL_MS
  }

  lemma FirstBounds(s: seq<StepRecord>)
    requires |s| <= 1
    ensures s != [] ==> |s| + CountAbove(PERCENT_STEPS, s[|s| - 1].percent) <= 1 + |PERCENT_STEPS|
    ensures |s| <= 1 + |PERCENT_STEPS|
  {
  }

  lemma LastBounds(s: seq<StepRecord>)
    requires |s| > 1 && Paced(s)
    requires |s| - 1 + CountAbove(PERCENT_STEPS, s[|s| - 2].percent) <= 1 + |PERCENT_STEPS|
    ensures |s| + CountAbove(PERCENT_STEPS, s[|s| - 1].percent) <= 1 + |PERCENT_STEPS|
  {
    hide CountAbove;
    CountAboveMonotone(PERCENT_STEPS, s[|s| - 2].percent, s[|s| - 1].percent);
  }

  lemma ApartBefore(s: seq<StepRecord>, i: nat, j: nat)
    requires i < j < |s| - 1 && Apart(s[..|s| - 1], i, j)
    ensures Apart(s, i, j)
  {
  }

  lemma LastApart(s: seq<StepRecord>, i: nat)
    requires Paced(s) && i < |s| - 1
    requires i < |s| - 2 ==> Apart(s[..|s| - 1], i, |s| - 2)
    ensures Apart(s, i, |s| - 1)
  {
    assert MayFollow(s[..|s| - 1], s[|s| - 1]);
  }

  /** In every run, for every rollout: the recorded steps are paced, and a rolling rollout's row
      shows the last of them. */
  lemma RolloutPace(bucket: Buckets, w: World, es: seq<Event>, v: Version)
    requires Initial(w)
    ensures var w' := Run(bucket, w, es);
            var s := Steps(w', v);
            && |s| <= 1 + |PERCENT_STEPS|
            && (forall i, j :: 0 <= i < j < |s| ==> Apart(s, i, j))
            && (IsRolling(w'.db, v) ==> w'.db.rollouts[v].percent == if s == [] then 0 else s[|s| - 1].percent)
  {
    hide Apply, JobInv, Run;
    InitialInv(w);
    RunKeepsInv(bucket, w, es);
    var w' := Run(bucket, w, es);
    assert Paced(Steps(w', v)) by {
      PacedEmpty();
    }
    PaceBounds(Steps(w', v));
    if v in w'.db.rollouts {
      assert StepsMatch(w'.db.rollouts[v], Steps(w', v));
    }
  }

  // ---------------------------------------------------------------- reports

  /** What a report says of an attempt. */
  ghost predicate Says(a: Attempt, b: Attempt, o: Outcome, now: int) {
    && b.reportedAt == Some(now) && b.fromVersion == a.fromVersion && b.offeredAt == a.offeredAt
    && match o
       case OnTarget => b.status.Verified?
       case Reverted => b.status.RolledBack?
       case StillOld => b.status == a.status || (a.status.Offered? && b.status.Withdrawn?)
  }

  lemma WrittenKeepsReported(w: World, k: Key)
    requires w.job.Running? && k in w.db.attempts && w.db.attempts[k].reportedAt.Some?
    ensures var a := w.db.attempts[k];
            && k in Written(w).attempts
            && (Written(w).attempts[k] == a || (a.status.Offered? && Written(w).attempts[k] == a.(status := Withdrawn)))
  {
  }

  lemma StepKeepsReported(bucket: Buckets, w: World, e: Event, k: Key)
    requires k in w.db.attempts && w.db.attempts[k].reportedAt.Some?
    requires !(e.Report? && (e.v, e.server) == k) && e != DeleteServer(k.1)
    ensures var a, db := w.db.attempts[k], Apply(bucket, w, e).db;
            && k in db.attempts
            && (db.attempts[k] == a || (a.status.Offered? && db.attempts[k] == a.(status := Withdrawn)))
  {
    hide JobStep, Written;
    if e.JobAccess? && w.job.Running? {
      StepWrites(bucket, w);
      WrittenKeepsReported(w, k);
    }
  }

  /** A report is the last word on a host until its next one: a host on the target is verified, one
      that went back is rolled back, and a host that has been heard of is never failed for its
      silence, whatever passes, settings and other hosts do. */
  lemma {:induction false} ReportIsLastWord(
      bucket: Buckets, w: World, v: Version, server: ServerId, o: Outcome, now: int, es: seq<Event>)
    requires (v, server) in w.db.attempts
    requires forall e :: e in es ==> !(e.Report? && (e.v, e.server) == (v, server)) && e != DeleteServer(server)
    ensures var t := Run(bucket, Apply(bucket, w, Report(v, server, o, now)), es);
            (v, server) in t.db.attempts && Says(w.db.attempts[(v, server)], t.db.attempts[(v, server)], o, now)
    decreases |es|
  {
    if es == [] {
    } else {
      var n := |es| - 1;
      ReportIsLastWord(bucket, w, v, server, o, now, es[..n]);
      assert es[n] in es;
      var s := Run(bucket, Apply(bucket, w, Report(v, server, o, now)), es[..n]);
      hide Apply;
      StepKeepsReported(bucket, s, es[n], (v, server));
    }
  }

  // ---------------------------------------------------------------- the gate

  lemma Scaled(a: real, b: real, j: real)
    requires j > 0.0
    ensures a > b <==> a * j > b * j
  {
    if a > b {
      assert (a - b) * j > 0.0;
    } else {
      assert (b - a) * j >= 0.0;
    }
  }

  /** The gate as a rate: two failures at least, and more than a fifth of the judged hosts. */
  lemma GateIsRate(h: Health)
    requires h.failed <= h.judged
    ensures GateTripped(h) <==> h.failed >= 2 && h.failed as real / h.judged as real > 0.2
  {
    if h.judged > 0 {
      MoreThanAFifth(h.failed, h.judged);
    }
  }

  lemma MoreThanAFifth(failed: nat, judged: nat)
    requires judged > 0
    ensures failed as real / judged as real > 0.2 <==> 5 * failed > judged
  {
    var f, j := failed as real, judged as real;
    var rate := f / j;
    DivideBack(f, j);
    Scaled(rate, 0.2, j);
    assert rate > 0.2 <==> f > 0.2 * j;
    assert f > 0.2 * j <==> 5.0 * f > j;
    assert (5 * failed) as real == 5.0 * f;
  }

  lemma DivideBack(f: real, j: real)
    requires j > 0.0
    ensures f / j * j == f
  {
  }

  lemma TwoParts<T>(a: set<T>, b: set<T>)
    requires a !! b
    ensures |a + b| == |a| + |b|
  {
  }

  /** All attempts of a rollout, by its health: the judged ones - verified or not -, the pending and
      the withdrawn. A host that rolled back and one that went silent both count as failed. */
  lemma HealthCountsAll(db: Db, v: Version)
    ensures var h := StepHealth(db, v);
            && h.judged == h.verified + h.failed
            && h.judged + h.pending + |WithStatus(db, v, Withdrawn)| == |set k | k in db.attempts && k.0 == v|
            && h.verified == |WithStatus(db, v, Verified)| && h.pending == |WithStatus(db, v, Offered)|
  {
    var good, lost, gone := WithStatus(db, v, Verified), WithStatus(db, v, Failed), WithStatus(db, v, RolledBack);
    var open, out := WithStatus(db, v, Offered), WithStatus(db, v, Withdrawn);
    AllStatuses(db, v);
    StatusesApart(db, v);
    hide WithStatus;
    TwoParts(good, lost);
    TwoParts(good + lost, gone);
    TwoParts(good + lost + gone, open);
    TwoParts(good + lost + gone + open, out);
  }

  lemma AllStatuses(db: Db, v: Version)
    ensures (set k | k in db.attempts && k.0 == v)
            == WithStatus(db, v, Verified) + WithStatus(db, v, Failed) + WithStatus(db, v, RolledBack)
               + WithStatus(db, v, Offered) + WithStatus(db, v, Withdrawn)
  {
  }

  lemma StatusesApart(db: Db, v: Version)
    ensures WithStatus(db, v, Verified) !! WithStatus(db, v, Failed) !! WithStatus(db, v, RolledBack)
            !! WithStatus(db, v, Offered) !! WithStatus(db, v, Withdrawn)
  {
  }

  /** A tripped gate halts: the judging access and the next one end the rollout, whatever is still
      pending and however recent the last step. */
  lemma TrippedGateHalts(bucket: Buckets, w: World, v: Version, row: Rollout)
    requires w.job.Running? && w.job.pc == Judge(v, row) && v in w.db.rollouts
    requires GateTripped(StepHealth(w.db, v))
    ensures var t := Apply(bucket, Apply(bucket, w, JobAccess), JobAccess);
            && t.job == Done(DidHalt) && v in t.db.rollouts && t.db.rollouts[v].status.Halted?
            && t.db.rollouts[v].completedAt == Some(w.job.pass.now) && NoneOffered(t.db, v)
  {
    hide GateTripped, StepHealth;
  }
}
