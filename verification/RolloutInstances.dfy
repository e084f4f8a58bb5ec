/** Several application instances, each running passes of the rollout job under its lock, refined
    by the machine that runs one pass at a time. */
module RolloutInstances {
  import opened CohortOrder
  import opened CollectorRollout
  import Lock = RedisLock
  import Whole = RolloutJob

  type Pid = Lock.Pid

  datatype Instances = Instances(
    lock: Lock.State, jobs: map<Pid, Job>,
    db: Db, env: Env, steps: map<Version, seq<StepRecord>>, reach: map<Version, int>)

  datatype Happening =
    | Enter(p: Pid, now: int)
    | Access(p: Pid)
    | Outside(e: Event)
    | DelLands(p: Pid)
    | DelFails(p: Pid)
    | Dies(p: Pid)
    | Passes(elapsed: nat)

  function JobOf(m: Instances, p: Pid): Job { if p in m.jobs then m.jobs[p] else Idle }

  /** The world as the instance with that job sees it. */
  function Seen(m: Instances, job: Job): World { World(m.db, m.env, job, m.steps, m.reach) }

  function Put(m: Instances, w: World): Instances {
    m.(db := w.db, env := w.env, steps := w.steps, reach := w.reach)
  }

  /** `withLock(orgId, () => advanceOrg(orgId))`, one access at a time. */
  ghost function Happens(bucket: Buckets, m: Instances, h: Happening): Instances {
    match h
    case Enter(p, now) =>
      if Lock.PhaseOf(m.lock, p).Out? && Lock.KeyFree(m.lock) then
        m.(lock := Lock.Apply(m.lock, Lock.TryLock(p)),
           jobs := m.jobs[p := Apply(bucket, Seen(m, Idle), Start(now)).job])
      else m
    case Access(p) =>
      if !JobOf(m, p).Running? then m
      else
        var w := JobStep(bucket, Seen(m, JobOf(m, p)));
        var t := Put(m, w).(jobs := m.jobs[p := w.job]);
        if w.job.Running? then t else t.(lock := Lock.Apply(m.lock, Lock.Return(p)))
    case Outside(e) =>
      if e.Change? || e.Report? || e.DeleteServer? then Put(m, Apply(bucket, Seen(m, Idle), e)) else m
    case DelLands(p) => m.(lock := Lock.Apply(m.lock, Lock.DelLands(p)))
    case DelFails(p) => m.(lock := Lock.Apply(m.lock, Lock.DelFails(p)))
    case Dies(p) => m.(lock := Lock.Apply(m.lock, Lock.Crash(p)), jobs := m.jobs[p := Idle])
    case Passes(elapsed) => m.(lock := Lock.Apply(m.lock, Lock.Tick(elapsed)))
  }

  ghost function RunAll(bucket: Buckets, m: Instances, hs: seq<Happening>): Instances
    decreases |hs|
  {
    if hs == [] then m else Happens(bucket, RunAll(bucket, m, hs[..|hs| - 1]), hs[|hs| - 1])
  }

  ghost predicate Fresh(m: Instances) {
    && Lock.Initial(m.lock) && !m.lock.failOpen && m.jobs == map[]
    && Initial(Seen(m, Idle))
  }

  /** A pass runs exactly inside the lock. */
  ghost predicate Guarded(m: Instances) {
    && Lock.Inv(m.lock) && !m.lock.failOpen
    && forall p :: JobOf(m, p).Running? <==> Lock.PhaseOf(m.lock, p).Inside?
  }

  /** `w` is what the instances have made of the tables, with the pass of whichever is inside. */
  ghost predicate Mirrors(w: World, m: Instances) {
    && w == Seen(m, w.job)
    && (forall p :: JobOf(m, p).Running? ==> w.job == JobOf(m, p))
    && (w.job.Running? ==> exists p :: JobOf(m, p).Running?)
  }

  lemma LockKept(bucket: Buckets, m: Instances, h: Happening)
    requires Guarded(m)
    ensures var t := Happens(bucket, m, h);
            Lock.Inv(t.lock) && !t.lock.failOpen && (m.lock.overran ==> t.lock.overran)
  {
    hide Lock.Apply, JobStep, Apply, Lock.Inv;
    match h
    case Enter(p, _) => Lock.ApplyKeepsInv(m.lock, Lock.TryLock(p));
    case Access(p) => Lock.ApplyKeepsInv(m.lock, Lock.Return(p));
    case Outside(_) =>
    case DelLands(p) => Lock.ApplyKeepsInv(m.lock, Lock.DelLands(p));
    case DelFails(p) => Lock.ApplyKeepsInv(m.lock, Lock.DelFails(p));
    case Dies(p) => Lock.ApplyKeepsInv(m.lock, Lock.Crash(p));
    case Passes(elapsed) => Lock.ApplyKeepsInv(m.lock, Lock.Tick(elapsed));
  }

  predicate Inside(s: Lock.State, p: Pid) { Lock.PhaseOf(s, p).Inside? }

  /** Who is inside after an event of the lock. */
  lemma LockPhases(s: Lock.State, e: Lock.Event, q: Pid)
    ensures Inside(Lock.Apply(s, e), q) ==
            match e
            case TryLock(p) => if p == q && Lock.PhaseOf(s, p).Out? && Lock.KeyFree(s) then true else Inside(s, q)
            case Return(p) => p != q && Inside(s, q)
            case Crash(p) => p != q && Inside(s, q)
            case _ => Inside(s, q)
  {
  }

  lemma GuardKept(bucket: Buckets, m: Instances, h: Happening)
    requires Guarded(m)
    ensures Guarded(Happens(bucket, m, h))
  {
    LockKept(bucket, m, h);
    var t := Happens(bucket, m, h);
    forall q ensures JobOf(t, q).Running? <==> Inside(t.lock, q) {
      GuardKeptFor(bucket, m, h, q);
    }
  }

  lemma GuardKeptFor(bucket: Buckets, m: Instances, h: Happening, q: Pid)
    requires Guarded(m)
    ensures var t := Happens(bucket, m, h); JobOf(t, q).Running? <==> Inside(t.lock, q)
  {
    hide JobStep, Lock.Inv, Lock.Apply, Lock.PhaseOf, Inside;
    assert JobOf(m, q).Running? <==> Inside(m.lock, q) by {
      assert Lock.PhaseOf(m.lock, q).Inside? == Inside(m.lock, q) by { PhaseInside(m.lock, q); }
    }
    match h
    case Enter(p, _) => LockPhases(m.lock, Lock.TryLock(p), q);
    case Access(p) => LockPhases(m.lock, Lock.Return(p), q);
    case DelLands(p) => LockPhases(m.lock, Lock.DelLands(p), q);
    case DelFails(p) => LockPhases(m.lock, Lock.DelFails(p), q);
    case Dies(p) => LockPhases(m.lock, Lock.Crash(p), q);
    case Passes(elapsed) => LockPhases(m.lock, Lock.Tick(elapsed), q);
    case _ =>
  }

  lemma PhaseInside(s: Lock.State, q: Pid)
    ensures Inside(s, q) == Lock.PhaseOf(s, q).Inside?
  {
  }

  /** Inside a lock nobody has overrun there is one pass, and none when the key is free. */
  lemma OneInside(m: Instances, p: Pid, q: Pid)
    requires Guarded(m) && !m.lock.overran && JobOf(m, p).Running?
    ensures JobOf(m, q).Running? ==> p == q
    ensures !Lock.KeyFree(m.lock)
  {
    assert Lock.PhaseOf(m.lock, p).Inside?;
    if JobOf(m, q).Running? {
      assert Lock.PhaseOf(m.lock, q).Inside?;
    }
  }

  /** Each happening is at most one event of the machine with a single pass. */
  lemma HappensMirrored(bucket: Buckets, w: World, m: Instances, h: Happening) returns (es: seq<Event>)
    requires Guarded(m) && !m.lock.overran && Mirrors(w, m)
    ensures |es| <= 1
    ensures Mirrors(if es == [] then w else Apply(bucket, w, es[0]), Happens(bucket, m, h))
  {
    forall p, q | JobOf(m, p).Running? && JobOf(m, q).Running? ensures p == q {
      OneInside(m, p, q);
    }
    forall p | JobOf(m, p).Running? ensures !Lock.KeyFree(m.lock) {
      OneInside(m, p, p);
    }
    hide JobStep, Lock.Inv, Lock.Apply, Lock.PhaseOf, Lock.KeyFree;
    es := [];
    match h
    case Enter(p, now) =>
      if Lock.PhaseOf(m.lock, p).Out? && Lock.KeyFree(m.lock) {
        es := [Start(now)];
        EnterMirrored(bucket, w, m, p, now);
      }
    case Access(p) => if JobOf(m, p).Running? { es := [JobAccess]; AccessMirrored(bucket, w, m, p); }
    case Outside(e) =>
      if e.Change? || e.Report? || e.DeleteServer? {
        es := [e];
        OutsideMirrored(bucket, w, m, e);
      }
    case Dies(p) =>
      if JobOf(m, p).Running? { es := [Crash]; }
      DiesMirrored(bucket, w, m, p);
    case _ => SameJobsMirrored(w, m, Happens(bucket, m, h));
  }

  lemma SameJobsMirrored(w: World, m: Instances, t: Instances)
    requires Mirrors(w, m) && t == m.(lock := t.lock)
    ensures Mirrors(w, t)
  {
    assert forall q :: JobOf(t, q) == JobOf(m, q);
  }

  lemma OutsideMirrored(bucket: Buckets, w: World, m: Instances, e: Event)
    requires Mirrors(w, m) && (e.Change? || e.Report? || e.DeleteServer?)
    ensures Mirrors(Apply(bucket, w, e), Happens(bucket, m, Outside(e)))
  {
    assert forall q :: JobOf(Happens(bucket, m, Outside(e)), q) == JobOf(m, q);
  }

  lemma DiesMirrored(bucket: Buckets, w: World, m: Instances, p: Pid)
    requires Mirrors(w, m) && forall q :: JobOf(m, p).Running? && JobOf(m, q).Running? ==> q == p
    ensures Mirrors(if JobOf(m, p).Running? then Apply(bucket, w, Crash) else w, Happens(bucket, m, Dies(p)))
  {
    hide Lock.Apply;
    var t := Happens(bucket, m, Dies(p));
    assert forall q :: JobOf(t, q) == if q == p then Idle else JobOf(m, q);
  }

  lemma EnterMirrored(bucket: Buckets, w: World, m: Instances, p: Pid, now: int)
    requires Mirrors(w, m) && Lock.PhaseOf(m.lock, p).Out? && Lock.KeyFree(m.lock)
    requires forall q :: !JobOf(m, q).Running?
    ensures Mirrors(Apply(bucket, w, Start(now)), Happens(bucket, m, Enter(p, now)))
  {
    hide JobStep, Lock.Inv, Lock.Apply;
    var t := Happens(bucket, m, Enter(p, now));
    assert JobOf(t, p).Running? && JobOf(t, p) == Apply(bucket, w, Start(now)).job;
    assert forall q :: q != p ==> JobOf(t, q) == JobOf(m, q);
  }

  lemma AccessMirrored(bucket: Buckets, w: World, m: Instances, p: Pid)
    requires Mirrors(w, m) && JobOf(m, p).Running? && forall q :: JobOf(m, q).Running? ==> q == p
    ensures Mirrors(Apply(bucket, w, JobAccess), Happens(bucket, m, Access(p)))
  {
    hide JobStep, Lock.Apply, Lock.Inv;
    var t := Happens(bucket, m, Access(p));
    assert JobOf(t, p) == Apply(bucket, w, JobAccess).job;
    assert forall q :: q != p ==> JobOf(t, q) == JobOf(m, q);
  }

  /** Every run of any number of instances in which no section and no `DEL` outlives the TTL is,
      for the tables, a run of the machine with a single pass: everything proved of that holds. */
  lemma {:induction false} InstancesRefine(bucket: Buckets, m: Instances, hs: seq<Happening>)
    returns (es: seq<Event>)
    requires Fresh(m) && !RunAll(bucket, m, hs).lock.overran
    ensures Guarded(RunAll(bucket, m, hs))
    ensures Mirrors(Run(bucket, Seen(m, Idle), es), RunAll(bucket, m, hs))
    decreases |hs|
  {
    hide Happens, Guarded, Mirrors, Apply;
    if hs == [] {
      es := [];
      FreshMirrors(m);
    } else {
      var front := hs[..|hs| - 1];
      var t := RunAll(bucket, m, front);
      RunGuarded(bucket, m, front);
      LockKept(bucket, t, hs[|hs| - 1]);
      var before := InstancesRefine(bucket, m, front);
      GuardKept(bucket, t, hs[|hs| - 1]);
      var last := HappensMirrored(bucket, Run(bucket, Seen(m, Idle), before), t, hs[|hs| - 1]);
      es := before + last;
      if last == [] {
        assert es == before;
      } else {
        assert es[..|es| - 1] == before && es[|es| - 1] == last[0];
      }
    }
  }

  lemma {:induction false} RunGuarded(bucket: Buckets, m: Instances, hs: seq<Happening>)
    requires Fresh(m)
    ensures Guarded(RunAll(bucket, m, hs))
    decreases |hs|
  {
    hide Happens, Guarded;
    if hs == [] {
      FreshMirrors(m);
    } else {
      RunGuarded(bucket, m, hs[..|hs| - 1]);
      GuardKept(bucket, RunAll(bucket, m, hs[..|hs| - 1]), hs[|hs| - 1]);
    }
  }

  lemma FreshMirrors(m: Instances)
    requires Fresh(m)
    ensures Guarded(m) && Mirrors(Seen(m, Idle), m)
  {
  }

  /** In particular the tables keep every promise, whichever instances wrote to them. */
  lemma InstancesKeepInv(bucket: Buckets, m: Instances, hs: seq<Happening>)
    requires Fresh(m) && !RunAll(bucket, m, hs).lock.overran
    ensures var t := RunAll(bucket, m, hs);
            && OneRolling(t.db) && OffersLive(t.db)
            && (forall v :: v in t.steps ==> Paced(t.steps[v]))
            && (forall p, q :: JobOf(t, p).Running? && JobOf(t, q).Running? ==> p == q)
  {
    hide RunAll, Run, JobInv, Paced;
    var t := RunAll(bucket, m, hs);
    var es := InstancesRefine(bucket, m, hs);
    InitialInv(Seen(m, Idle));
    RunKeepsInv(bucket, Seen(m, Idle), es);
    forall p, q | JobOf(t, p).Running? && JobOf(t, q).Running? ensures p == q {
      OneInside(t, p, q);
    }
  }

  // ---------------------------------------------------------------- an instance left alone

  lemma {:induction false} RunAllFront(bucket: Buckets, m: Instances, h: Happening, hs: seq<Happening>)
    ensures RunAll(bucket, m, [h] + hs) == RunAll(bucket, Happens(bucket, m, h), hs)
    decreases |hs|
  {
    hide Happens;
    var all := [h] + hs;
    if hs == [] {
      assert all[..|all| - 1] == [];
    } else {
      RunAllFront(bucket, m, h, hs[..|hs| - 1]);
      assert all[..|all| - 1] == [h] + hs[..|hs| - 1];
    }
  }

  /** From any point of its pass on, an instance left alone makes what is left of the pass. */
  lemma {:induction false} AccessesToEnd(bucket: Buckets, m: Instances, p: Pid) returns (hs: seq<Happening>)
    requires JobOf(m, p).Running?
    ensures var t, end := RunAll(bucket, m, hs), Whole.RunToEnd(bucket, Seen(m, JobOf(m, p)));
            && t.db == end.db && JobOf(t, p) == end.job && !end.job.Running?
            && t.lock == Lock.Apply(m.lock, Lock.Return(p))
    decreases Whole.Rank(JobOf(m, p)), Whole.Left(JobOf(m, p))
  {
    hide JobStep, Lock.Apply, Whole.Rank, Whole.Left;
    var w := Seen(m, JobOf(m, p));
    var t := Happens(bucket, m, Access(p));
    Whole.AccessDescends(bucket, w);
    assert JobOf(t, p) == JobStep(bucket, w).job && t.db == JobStep(bucket, w).db;
    if JobOf(t, p).Running? {
      assert Seen(t, JobOf(t, p)) == JobStep(bucket, w);
      var rest := AccessesToEnd(bucket, t, p);
      hs := [Access(p)] + rest;
      RunAllFront(bucket, m, Access(p), rest);
    } else {
      hs := [Access(p)];
      assert RunAll(bucket, m, [Access(p)][..0]) == m;
    }
  }

  /** The recorded history decides nothing. */
  lemma {:induction false} HistoryIsIdle(bucket: Buckets, w: World, u: World)
    requires SameButHistory(w, u)
    ensures var s, t := Whole.RunToEnd(bucket, w), Whole.RunToEnd(bucket, u);
            s.db == t.db && s.job == t.job && s.env == t.env
    decreases Whole.Rank(w.job), Whole.Left(w.job)
  {
    if w.job.Running? {
      Whole.AccessDescends(bucket, w);
      StepHistoryIsIdle(bucket, w, u);
      hide JobStep, Whole.Rank, Whole.Left;
      HistoryIsIdle(bucket, JobStep(bucket, w), JobStep(bucket, u));
    }
  }

  ghost predicate SameButHistory(w: World, u: World) { u == w.(steps := u.steps, reach := u.reach) }

  lemma OpenHistoryIsIdle(w: World, u: World)
    requires SameButHistory(w, u) && w.job.Running?
    ensures SameButHistory(AfterOpen(w), AfterOpen(u))
  {
  }

  lemma JudgeHistoryIsIdle(w: World, u: World, v: Version, row: Rollout)
    requires SameButHistory(w, u) && w.job.Running?
    ensures SameButHistory(AfterJudge(w, v, row), AfterJudge(u, v, row))
  {
    hide GateTripped, StepHealth;
  }

  lemma SeenHistoryIsIdle(bucket: Buckets, w: World, u: World, v: Version, row: Rollout, cands: seq<Candidate>)
    requires SameButHistory(w, u) && w.job.Running?
    ensures SameButHistory(AfterSeen(bucket, w, v, row, cands), AfterSeen(bucket, u, v, row, cands))
  {
    hide Cut, Attempted, StepAfter;
  }

  lemma OfferHistoryIsIdle(w: World, u: World, v: Version, c: Candidate)
    requires SameButHistory(w, u) && w.job.Running?
    ensures SameButHistory(AfterOffer(w, v, c).0, AfterOffer(u, v, c).0)
    ensures AfterOffer(w, v, c).1 == AfterOffer(u, v, c).1
    ensures AfterOffer(w, v, c).0.job == w.job
  {
  }

  lemma StepHistoryIsIdle(bucket: Buckets, w: World, u: World)
    requires SameButHistory(w, u) && w.job.Running?
    ensures SameButHistory(JobStep(bucket, w), JobStep(bucket, u))
  {
    hide AfterOpen, AfterJudge, AfterSeen, AfterOffer, CloseRollout, WithdrawInactive, FailSilent, SetRow;
    match w.job.pc
    case Open => OpenHistoryIsIdle(w, u);
    case Judge(v, row) => JudgeHistoryIsIdle(w, u, v, row);
    case ReadSeen(v, row, cands) => SeenHistoryIsIdle(bucket, w, u, v, row, cands);
    case Offer(v, _, todo, _, _, _) => if todo != [] { OfferHistoryIsIdle(w, u, v, todo[0]); }
    case _ =>
  }

  /** An instance that finds the lock free and is left alone makes a whole pass, what `AdvanceOrg`
      computes from the same tables, and leaves the lock free for the next. */
  lemma UndisturbedInstance(bucket: Buckets, m: Instances, p: Pid, now: int) returns (hs: seq<Happening>)
    requires Lock.PhaseOf(m.lock, p).Out? && Lock.KeyFree(m.lock)
    ensures var t, end := RunAll(bucket, m, hs), Whole.RunToEnd(bucket, Whole.Begin(m.db, m.env, now));
            && t.db == end.db && JobOf(t, p) == end.job
            && Lock.PhaseOf(t.lock, p).Out? && Lock.KeyFree(t.lock)
  {
    var entered := Happens(bucket, m, Enter(p, now));
    assert Lock.PhaseOf(entered.lock, p).Inside? && JobOf(entered, p).Running?;
    assert Seen(entered, JobOf(entered, p)).db == m.db;
    HistoryIsIdle(bucket, Whole.Begin(m.db, m.env, now), Seen(entered, JobOf(entered, p)));
    var rest := AccessesToEnd(bucket, entered, p);
    RunAllFront(bucket, m, Enter(p, now), rest);
    hs := [Enter(p, now)] + rest + [DelLands(p)];
    assert hs[..|hs| - 1] == [Enter(p, now)] + rest;
    hide RunAll, Whole.RunToEnd;
  }
}
