/** `advanceOrg` and `closeRollout` in the source's own form: methods that update the two tables,
    proved to be the undisturbed run of the machine in CollectorRollout. */
module RolloutJob {
  import opened Wrappers
  import opened CohortOrder
  import opened CollectorRollout

  function Rank(job: Job): nat {
    if !job.Running? then 0
    else match job.pc
      case Open => 12 case Seek(_) => 11 case CheckPrevious(_) => 10 case Create(_) => 9
      case WithdrawStep(_, _) => 8 case FailStep(_, _) => 7 case Judge(_, _) => 6 case Close(_, _) => 5
      case Widen(_, _) => 5 case ReadSeen(_, _, _) => 4 case Finish(_, _) => 3
      case Offer(_, _, _, _, _, _) => 3
  }

  function Left(job: Job): nat { if job.Running? && job.pc.Offer? then |job.pc.todo| else 0 }

  lemma AccessDescends(bucket: Buckets, w: World)
    requires w.job.Running?
    ensures var w' := JobStep(bucket, w);
            Rank(w'.job) < Rank(w.job) || (Rank(w'.job) == Rank(w.job) && Left(w'.job) < Left(w.job))
  {
    hide Cut, GateTripped, StepHealth, CloseRollout, WithdrawInactive, FailSilent, SetRow, Attempted, StepAfter;
  }

  /** The machine run to its end with nothing in between. */
  ghost function RunToEnd(bucket: Buckets, w: World): World
    decreases Rank(w.job), Left(w.job)
  {
    if w.job.Running? then
      AccessDescends(bucket, w);
      RunToEnd(bucket, JobStep(bucket, w))
    else w
  }

  ghost function Begin(db: Db, env: Env, now: int): World {
    World(db, env, Running(Pass(now, env.autoUpdate, env.canary, env.target), Open, db), map[], map[])
  }

  lemma Unroll(bucket: Buckets, w: World)
    requires w.job.Running?
    ensures RunToEnd(bucket, w) == RunToEnd(bucket, JobStep(bucket, w))
  {
  }

  lemma {:induction false} RunFront(bucket: Buckets, w: World, e: Event, es: seq<Event>)
    ensures Run(bucket, w, [e] + es) == Run(bucket, Apply(bucket, w, e), es)
    decreases |es|
  {
    hide Apply;
    var all := [e] + es;
    if es == [] {
      assert all[..|all| - 1] == [];
    } else {
      RunFront(bucket, w, e, es[..|es| - 1]);
      assert all[..|all| - 1] == [e] + es[..|es| - 1];
    }
  }

  /** A pass that nothing disturbs is one of the machine's runs, so what `AdvanceOrg` computes is
      covered by everything proved of all runs. */
  lemma {:induction false} UndisturbedIsARun(bucket: Buckets, w: World) returns (es: seq<Event>)
    ensures RunToEnd(bucket, w) == Run(bucket, w, es)
    ensures forall e :: e in es ==> e.JobAccess?
    decreases Rank(w.job), Left(w.job)
  {
    hide JobStep, Rank, Left;
    es := [];
    if w.job.Running? {
      AccessDescends(bucket, w);
      var rest := UndisturbedIsARun(bucket, JobStep(bucket, w));
      es := [JobAccess] + rest;
      RunFront(bucket, w, JobAccess, rest);
    }
  }

  /** In particular `AdvanceOrg` keeps every promise of the tables it is given. */
  lemma AdvanceKeepsInv(bucket: Buckets, w: World)
    requires Inv(w)
    ensures Inv(RunToEnd(bucket, w))
  {
    hide Inv, RunToEnd;
    var es := UndisturbedIsARun(bucket, w);
    RunKeepsInv(bucket, w, es);
  }

  lemma Ended(bucket: Buckets, w: World)
    ensures !w.job.Running? ==> RunToEnd(bucket, w) == w
  {
  }

  /** Offered, and not heard of within the grace period. */
  predicate Silent(a: Attempt, now: int) {
    a.status.Offered? && a.offeredAt < now - VERIFY_GRACE_MS && a.reportedAt.None?
  }

  /** What a sweep is for: a host taken out of service is never counted as a failure, no attempt
      is left that is outstanding on such a host or silent past its grace period, and whoever has
      reported, or has time left, is not judged. */
  ghost predicate Swept(before: Db, after: Db, v: Version, inactive: set<ServerId>, now: int) {
    && after.rollouts == before.rollouts && after.attempts.Keys == before.attempts.Keys
    && forall k :: k in after.attempts ==>
         var a, b := before.attempts[k], after.attempts[k];
         && (b.status.Failed? && !a.status.Failed? ==> k.0 == v && k.1 !in inactive && Silent(a, now))
         && (b.status.Withdrawn? && !a.status.Withdrawn? ==> k.0 == v && k.1 in inactive && a.status.Offered?)
         && (k.0 == v && b.status.Offered? ==> k.1 !in inactive && !Silent(b, now))
         && (b != a ==> (b.status.Failed? || b.status.Withdrawn?) && b == a.(status := b.status))
  }

  lemma SweepMeans(db: Db, v: Version, inactive: set<ServerId>, now: int)
    ensures Swept(db, FailSilent(WithdrawInactive(db, v, inactive), v, now), v, inactive, now)
  {
  }

  // ---------------------------------------------------------------- what a pass comes to

  /** The rollout has ended, and what was outstanding of it is withdrawn, nothing else. */
  ghost predicate EndedAs(before: Db, after: Db, v: Version, status: RolloutStatus, now: int) {
    && v in before.rollouts
    && after.rollouts == before.rollouts[v := before.rollouts[v].(status := status, completedAt := Some(now))]
    && after.attempts.Keys == before.attempts.Keys && NoneOffered(after, v)
    && forall k :: k in after.attempts && after.attempts[k] != before.attempts[k] ==>
         k.0 == v && before.attempts[k].status.Offered? && after.attempts[k] == before.attempts[k].(status := Withdrawn)
  }

  /** The percentage after `percent`: the canary's, ten without one and a hundred at most, or the
      least of the list above. */
  predicate IsStep(percent: int, canary: nat, p: int) {
    if percent == 0 then p == if canary == 0 then 10 else if canary > 100 then 100 else canary
    else p in PERCENT_STEPS && p > percent && forall q :: q in PERCENT_STEPS && q > percent ==> p <= q
  }

  /** Each host of `todo` that had no attempt has been offered, except where the write fails. */
  ghost predicate OfferedTo(
      before: Db, after: Db, v: Version, todo: seq<Candidate>, failing: set<ServerId>, now: int, n: nat)
  {
    && after.rollouts == before.rollouts
    && (forall k :: k in after.attempts <==>
          k in before.attempts || (k.0 == v && k.1 !in failing && exists c :: c in todo && c.server == k.1))
    && (forall k :: k in before.attempts ==> after.attempts[k] == before.attempts[k])
    && (forall k :: k in after.attempts && k !in before.attempts ==>
          exists c :: c in todo && c.server == k.1
                      && after.attempts[k] == Attempt(Offered, c.currentVersion, now, None))
    && n == |after.attempts| - |before.attempts|
  }

  lemma NoneOfferedTo(db: Db, v: Version, failing: set<ServerId>, now: int)
    ensures OfferedTo(db, db, v, [], failing, now, 0)
  {
  }

  lemma OneOfferedTo(
      before: Db, mid: Db, after: Db, v: Version, todo: seq<Candidate>, c: Candidate,
      failing: set<ServerId>, now: int, n: nat)
    requires OfferedTo(before, mid, v, todo, failing, now, n)
    requires after == if (v, c.server) !in mid.attempts && c.server !in failing
                      then mid.(attempts :=
                             mid.attempts[(v, c.server) := Attempt(Offered, c.currentVersion, now, None)])
                      else mid
    ensures OfferedTo(before, after, v, todo + [c], failing, now,
                      if (v, c.server) !in mid.attempts && c.server !in failing then n + 1 else n)
  {
    forall k: Key
      ensures (exists d :: d in todo + [c] && d.server == k.1)
              <==> (exists d :: d in todo && d.server == k.1) || c.server == k.1
    {
      assert c in todo + [c];
      if d :| d in todo && d.server == k.1 {
        assert d in todo + [c];
      }
    }
    forall k | k in after.attempts && k !in before.attempts
      ensures exists d :: d in todo + [c] && d.server == k.1
                          && after.attempts[k] == Attempt(Offered, d.currentVersion, now, None)
    {
      if k in mid.attempts {
        var d :| d in todo && d.server == k.1 && mid.attempts[k] == Attempt(Offered, d.currentVersion, now, None);
        assert d in todo + [c];
      } else {
        assert c in todo + [c];
      }
    }
  }

  /** A healthy rollout is completed when there is nobody left to offer to, or no step left;
      otherwise it takes the next step, and offers to the hosts of its cut. */
  ghost predicate Widened(
      before: Db, after: Db, bucket: Buckets, v: Version, row: Rollout, env: Env, now: int, action: Action)
  {
    var seen := Attempted(before, v);
    var nobody := env.candidates == [] && seen != {};
    if nobody || row.percent >= 100 then
      && action == DidComplete && after.attempts == before.attempts
      && after.rollouts == before.rollouts[v :=
           row.(status := Complete, percent := if nobody then 100 else row.percent, completedAt := Some(now))]
    else
      && action.Stepped? && IsStep(row.percent, env.canary, action.percent)
      && after.rollouts == before.rollouts[v := row.(percent := action.percent, lastStepAt := Some(now))]
      && OfferedTo(before, after.(rollouts := before.rollouts), v,
                   Cut(bucket, v, env.candidates, |seen|, action.percent), env.failing, now, action.offered)
  }

  /** A rolling rollout, with the attempts of deactivated and silent hosts settled first: halted if
      and only if the gate has tripped, whatever else; else left alone while a host is pending;
      else left alone until the last step is a dwell old; else widened. */
  ghost predicate JudgedAs(
      before: Db, after: Db, bucket: Buckets, v: Version, row: Rollout, env: Env, now: int, action: Action)
  {
    var swept := FailSilent(WithdrawInactive(before, v, env.inactive), v, now);
    var h := StepHealth(swept, v);
    if GateTripped(h) then action == DidHalt && EndedAs(swept, after, v, Halted, now)
    else if h.pending > 0 then action == Waiting && after == swept
    else if row.lastStepAt.Some? && now - row.lastStepAt.value < STEP_DWELL_MS then action == Dwelling && after == swept
    else Widened(swept, after, bucket, v, row, env, now, action)
  }

  /** A whole pass. */
  ghost predicate AdvancedAs(before: Db, after: Db, bucket: Buckets, env: Env, now: int, action: Action) {
    && (!env.autoUpdate && NoneRolling(before) ==> action == Disabled && after == before)
    && (env.autoUpdate && env.target.None? ==> action == NoTarget && after == before)
    && (forall v :: IsRolling(before, v) && (!env.autoUpdate || (env.target.Some? && env.target != Some(v))) ==>
          action == DidCancel && EndedAs(before, after, v, Cancelled, now))
    && (forall v :: IsRolling(before, v) && env.autoUpdate && env.target == Some(v) ==>
          JudgedAs(before, after, bucket, v, before.rollouts[v], env, now, action))
    && (env.autoUpdate && env.target.Some? && NoneRolling(before) ==>
          var v, row := env.target.value, Rollout(Rolling, 0, now, None, None);
          if env.candidates == [] then action == NothingToDo && after == before
          else if v in before.rollouts then action == PreviouslyEnded && after == before
          else JudgedAs(SetRow(before, v, row), after, bucket, v, row, env, now, action))
  }

  lemma ClosedIsEnded(db: Db, v: Version, status: RolloutStatus, now: int)
    requires v in db.rollouts
    ensures EndedAs(db, CloseRollout(db, v, status, now), v, status, now)
  {
  }

  lemma StepIsStep(percent: int, canary: nat)
    ensures StepAfter(percent, canary).NoStep? <==> percent >= 100
    ensures StepAfter(percent, canary).Percent? ==> IsStep(percent, canary, StepAfter(percent, canary).value)
  {
    NextPercentIsLeast(percent);
  }

  // ---------------------------------------------------------------- what a host reports

  function Outstanding(db: Db, server: ServerId): set<Key> {
    set k | k in db.attempts && k.1 == server && db.attempts[k].status.Offered?
  }

  predicate IsLatest(db: Db, ks: set<Key>, k: Key)
    requires forall j <- ks :: j in db.attempts
  {
    k in ks && forall j <- ks :: db.attempts[j].offeredAt <= db.attempts[k].offeredAt
  }

  lemma {:induction false} SomeLatest(db: Db, ks: set<Key>) returns (k: Key)
    requires ks != {} && forall j <- ks :: j in db.attempts
    ensures IsLatest(db, ks, k)
    decreases |ks|
  {
    k :| k in ks;
    var rest := ks - {k};
    assert ks == rest + {k};
    if rest != {} {
      var l := SomeLatest(db, rest);
      if db.attempts[k].offeredAt < db.attempts[l].offeredAt {
        k := l;
      }
    }
  }

  /** Among the tables' promises: a host has one outstanding attempt at most, so its report cannot
      be put down to the wrong rollout. */
  lemma OneOutstanding(w: World, server: ServerId, j: Key, k: Key)
    requires Inv(w) && j in Outstanding(w.db, server) && k in Outstanding(w.db, server)
    ensures j == k && IsRolling(w.db, k.0)
  {
    hide JobInv, StepsInv;
    assert j == (j.0, j.1) && k == (k.0, k.1);
    assert IsRolling(w.db, j.0) && IsRolling(w.db, k.0);
  }

  /** One turn of the offer loop in the machine. */
  lemma OfferAccess(bucket: Buckets, w: World)
    requires w.job.Running? && w.job.pc.Offer? && w.job.pc.todo != []
    ensures var t, pc, c := JobStep(bucket, w), w.job.pc, w.job.pc.todo[0];
            var takes := (pc.v, c.server) !in w.db.attempts && c.server !in w.env.failing;
            && t.job.Running? && t.job.pass == w.job.pass && t.env == w.env
            && t.job.pc == pc.(todo := pc.todo[1..], offered := pc.offered + if takes then 1 else 0)
            && t.db == if takes then w.db.(attempts :=
                 w.db.attempts[(pc.v, c.server) := Attempt(Offered, c.currentVersion, w.job.pass.now, None)])
               else w.db
    ensures RunToEnd(bucket, w) == RunToEnd(bucket, JobStep(bucket, w))
  {
    hide Cut, GateTripped, StepHealth;
    Unroll(bucket, w);
  }

  class RolloutTables {
    var rollouts: map<Version, Rollout>
    var attempts: map<Key, Attempt>

    constructor ()
      ensures Tables() == Db(map[], map[])
    {
      rollouts, attempts := map[], map[];
    }

    ghost function Tables(): Db
      reads this
    {
      Db(rollouts, attempts)
    }

    method FindOpen() returns (open: Option<Version>)
      requires OneRolling(Tables())
      ensures open == FindRolling(Tables())
    {
      if v :| v in rollouts && rollouts[v].status.Rolling? {
        open := Some(v);
      } else {
        open := None;
      }
    }

    /** The row and its outstanding attempts change together, as in the source's transaction: the
        rollout has ended, nothing of it is outstanding any more, what had been reported stays on
        record, and no other rollout is touched. */
    method Close(v: Version, status: RolloutStatus, now: int)
      requires v in rollouts
      modifies this
      ensures Tables() == CloseRollout(old(Tables()), v, status, now)
      ensures rollouts.Keys == old(rollouts.Keys) && attempts.Keys == old(attempts.Keys)
      ensures rollouts[v].status == status && rollouts[v].completedAt == Some(now)
      ensures rollouts[v].percent == old(rollouts[v].percent)
      ensures NoneOffered(Tables(), v)
      ensures forall k :: k in attempts && attempts[k] != old(attempts[k]) ==>
                k.0 == v && old(attempts[k]).status.Offered? && attempts[k].status.Withdrawn?
      ensures forall u :: u in rollouts && u != v ==> rollouts[u] == old(rollouts[u])
    {
      rollouts := rollouts[v := rollouts[v].(status := status, completedAt := Some(now))];
      attempts := map k | k in attempts ::
        if k.0 == v && attempts[k].status.Offered? then attempts[k].(status := Withdrawn) else attempts[k];
    }

    /** `recordReportedVersion`: the host's latest outstanding attempt is settled by what it runs now -
        verified on the target, rolled back when its grace is over and it is not -, and nothing
        else changes; `onTarget` compares the versions. */
    method RecordReportedVersion(server: ServerId, onTarget: bool, now: int) returns (found: Option<Key>)
      modifies this`attempts
      ensures found.None? <==> Outstanding(old(Tables()), server) == {}
      ensures found.None? ==> attempts == old(attempts)
      ensures found.Some? ==>
                && IsLatest(old(Tables()), Outstanding(old(Tables()), server), found.value)
                && attempts == old(attempts)[found.value := ReportWrite(
                     old(attempts)[found.value],
                     if onTarget then OnTarget
                     else if now - old(attempts)[found.value].offeredAt < VERIFY_GRACE_MS then StillOld
                     else Reverted, now)]
    {
      var offered := set k | k in attempts && k.1 == server && attempts[k].status.Offered?;
      assert offered == Outstanding(Tables(), server);
      if offered == {} {
        return None;
      }
      ghost var latest := SomeLatest(Tables(), offered);
      var k :| k in offered && forall j <- offered :: attempts[j].offeredAt <= attempts[k].offeredAt;
      found := Some(k);
      var a := attempts[k];
      if onTarget {
        attempts := attempts[k := a.(status := Verified, reportedAt := Some(now))];
      } else if now - a.offeredAt < VERIFY_GRACE_MS {
        attempts := attempts[k := a.(reportedAt := Some(now))];
      } else {
        attempts := attempts[k := a.(status := RolledBack, reportedAt := Some(now))];
      }
    }

    /** The cohort loop: offer to each host of `todo` in turn, going on past the ones that fail. */
    method OfferAll(v: Version, step: int, todo: seq<Candidate>, failing: set<ServerId>, now: int,
                    ghost bucket: Buckets, ghost w: World)
      returns (offered: nat, ghost end: World)
      requires w.job.Running? && w.job.pass.now == now && w.env.failing == failing && w.db == Tables()
      requires w.job.pc.Offer? && w.job.pc.v == v && w.job.pc.step == step
      requires w.job.pc.todo == todo && w.job.pc.offered == 0
      modifies this
      ensures rollouts == old(rollouts)
      ensures end.job.Running? && end.job.pass == w.job.pass && end.db == Tables()
      ensures end.job.pc == w.job.pc.(todo := [], offered := offered)
      ensures RunToEnd(bucket, end) == RunToEnd(bucket, w)
      ensures OfferedTo(old(Tables()), Tables(), v, todo, failing, now, offered)
    {
      hide OfferedTo, RunToEnd, JobStep;
      offered, end := 0, w;
      var i := 0;
      NoneOfferedTo(Tables(), v, failing, now);
      assert todo[..0] == [];
      while i < |todo|
        invariant 0 <= i <= |todo|
        invariant rollouts == old(rollouts)
        invariant end.job.Running? && end.job.pass == w.job.pass && end.env == w.env && end.db == Tables()
        invariant end.job.pc == w.job.pc.(todo := todo[i..], offered := offered)
        invariant RunToEnd(bucket, end) == RunToEnd(bucket, w)
        invariant OfferedTo(old(Tables()), Tables(), v, todo[..i], failing, now, offered)
      {
        var c := todo[i];
        ghost var mid, n := Tables(), offered;
        OfferAccess(bucket, end);
        end := JobStep(bucket, end);
        if (v, c.server) !in attempts && c.server !in failing {
          attempts := attempts[(v, c.server) := Attempt(Offered, c.currentVersion, now, None)];
          offered := offered + 1;
        }
        OneOfferedTo(old(Tables()), mid, Tables(), v, todo[..i], c, failing, now, n);
        assert todo[..i] + [c] == todo[..i + 1];
        i := i + 1;
      }
      assert todo[..i] == todo;
    }

    /** The second half of `advanceOrg`: widen a rollout that has been judged healthy. */
    method WidenRollout(bucket: Buckets, env: Env, now: int, v: Version, row: Rollout, ghost w: World)
      returns (action: Action)
      requires w.job.Running? && w.job.pass.now == now && w.job.pass.canary == env.canary && w.env == env
      requires w.db == Tables() && w.job.pc == Widen(v, row) && v in rollouts && rollouts[v] == row
      modifies this
      ensures RunToEnd(bucket, w).db == Tables() && RunToEnd(bucket, w).job == Done(action)
      ensures Widened(old(Tables()), Tables(), bucket, v, row, env, now, action)
    {
      hide RunToEnd, Cut, StepAfter, GateTripped, StepHealth, OfferedTo, IsStep;
      StepIsStep(row.percent, env.canary);
      var candidates := env.candidates;
      var seen := set k | k in attempts && k.0 == v :: k.1;
      ghost var m := JobStep(bucket, JobStep(bucket, w));
      Unroll(bucket, w);
      Unroll(bucket, JobStep(bucket, w));
      assert seen == Attempted(w.db, v);
      if candidates == [] && |seen| > 0 {
        rollouts := rollouts[v := row.(status := Complete, percent := 100, completedAt := Some(now))];
        Unroll(bucket, m);
        Ended(bucket, JobStep(bucket, m));
        return DidComplete;
      }
      var next := StepAfter(row.percent, env.canary);
      if next.NoStep? {
        rollouts := rollouts[v := row.(status := Complete, completedAt := Some(now))];
        Unroll(bucket, m);
        Ended(bucket, JobStep(bucket, m));
        return DidComplete;
      }
      var toOffer := Cut(bucket, v, candidates, |seen|, next.value);
      var offered, end := OfferAll(v, next.value, toOffer, env.failing, now, bucket, m);
      rollouts := rollouts[v := row.(percent := next.value, lastStepAt := Some(now))];
      Unroll(bucket, end);
      Ended(bucket, JobStep(bucket, end));
      return Stepped(next.value, offered);
    }

    /** Withdraw the attempts of deactivated servers, then fail the ones that went silent. */
    method Sweep(v: Version, inactive: set<ServerId>, now: int)
      modifies this`attempts
      ensures Tables() == FailSilent(WithdrawInactive(old(Tables()), v, inactive), v, now)
      ensures Swept(old(Tables()), Tables(), v, inactive, now)
    {
      attempts := map k | k in attempts ::
        if k.0 == v && attempts[k].status.Offered? && k.1 in inactive then attempts[k].(status := Withdrawn)
        else attempts[k];
      attempts := map k | k in attempts ::
        var a := attempts[k];
        if k.0 == v && a.status.Offered? && a.offeredAt < now - VERIFY_GRACE_MS && a.reportedAt.None?
        then a.(status := Failed) else a;
      SweepMeans(old(Tables()), v, inactive, now);
      hide Swept;
    }

    /** Withdraw, fail the silent, judge; then halt, wait or widen. */
    method JudgeRollout(bucket: Buckets, env: Env, now: int, v: Version, row: Rollout, ghost w: World)
      returns (action: Action)
      requires w.job.Running? && w.job.pass.now == now && w.job.pass.canary == env.canary && w.env == env
      requires w.db == Tables() && w.job.pc == WithdrawStep(v, row) && v in rollouts && rollouts[v] == row
      modifies this
      ensures RunToEnd(bucket, w).db == Tables() && RunToEnd(bucket, w).job == Done(action)
      ensures JudgedAs(old(Tables()), Tables(), bucket, v, row, env, now, action)
    {
      hide RunToEnd, StepHealth, GateTripped, CloseRollout, WithdrawInactive, FailSilent, Cut, Widened, EndedAs;
      Sweep(v, env.inactive, now);
      ghost var m := JobStep(bucket, JobStep(bucket, w));
      Unroll(bucket, w);
      Unroll(bucket, JobStep(bucket, w));
      assert m.db == Tables();
      Unroll(bucket, m);
      Ended(bucket, JobStep(bucket, m));
      var health := StepHealth(Db(rollouts, attempts), v);
      if GateTripped(health) {
        ghost var c := JobStep(bucket, m);
        ClosedIsEnded(Tables(), v, Halted, now);
        Close(v, Halted, now);
        Unroll(bucket, c);
        Ended(bucket, JobStep(bucket, c));
        return DidHalt;
      }
      if health.pending > 0 {
        return Waiting;
      }
      if !DwellOk(row.lastStepAt, now) {
        return Dwelling;
      }
      action := WidenRollout(bucket, env, now, v, row, JobStep(bucket, m));
    }

    /** Bring the organization's rollout up to date; `env` is what the pass reads of the settings,
        the servers and their reports. */
    method AdvanceOrg(bucket: Buckets, env: Env, now: int) returns (action: Action)
      requires OneRolling(Tables())
      modifies this
      ensures var end := RunToEnd(bucket, Begin(old(Tables()), env, now));
              Tables() == end.db && end.job == Done(action)
      ensures AdvancedAs(old(Tables()), Tables(), bucket, env, now, action)
    {
      hide JudgedAs, EndedAs, StepHealth, GateTripped, CloseRollout, WithdrawInactive, FailSilent, Cut;
      ghost var w := Begin(Tables(), env, now);
      var open := FindOpen();
      ghost var m := JobStep(bucket, w);
      Unroll(bucket, w);
      if !env.autoUpdate {
        if open.Some? {
          ClosedIsEnded(Tables(), open.value, Cancelled, now);
          Close(open.value, Cancelled, now);
          assert JobStep(bucket, m).db == Tables();
          return DidCancel;
        }
        return Disabled;
      }
      if env.target.None? {
        return NoTarget;
      }
      var target := env.target.value;
      if open.Some? && open.value != target {
        ClosedIsEnded(Tables(), open.value, Cancelled, now);
        Close(open.value, Cancelled, now);
        assert JobStep(bucket, m).db == Tables();
        return DidCancel;
      }
      if open.None? {
        if env.candidates == [] {
          return NothingToDo;
        }
        ghost var m2 := JobStep(bucket, m);
        Unroll(bucket, m);
        if target in rollouts {
          assert JobStep(bucket, m2).job == Done(PreviouslyEnded);
          return PreviouslyEnded;
        }
        ghost var m3 := JobStep(bucket, m2);
        var row := Rollout(Rolling, 0, now, None, None);
        rollouts := rollouts[target := row];
        ghost var m4 := JobStep(bucket, m3);
        assert m4.db == Tables();
        Unroll(bucket, m2);
        Unroll(bucket, m3);
        action := JudgeRollout(bucket, env, now, target, row, m4);
      } else {
        action := JudgeRollout(bucket, env, now, target, rollouts[target], m);
      }
    }
  }
}
