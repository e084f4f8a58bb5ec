/** Why the canary has to stand: a run in which a pass dies after two of its offers, the canary is
    lowered, and the next pass records a percentage that covers fewer hosts than were offered. */
module LoweredCanary {
  import opened Wrappers
  import opened CohortOrder
  import opened CollectorRollout
  import opened RolloutCohorts

  /** The run `es` from `w` leads to `t`, against the fixed fleet throughout. */
  ghost predicate Leads(bucket: Buckets, w: World, es: seq<Event>, t: World, v: Version, fleet: seq<Candidate>) {
    Run(bucket, w, es) == t && FleetRun(bucket, w, es, v, fleet)
  }

  lemma Onward(bucket: Buckets, w: World, es: seq<Event>, t: World, e: Event, v: Version, fleet: seq<Candidate>)
    requires Leads(bucket, w, es, t, v, fleet)
    requires FixedFleet(Apply(bucket, t, e), v, fleet) && KeepsFleet(e, fleet)
    ensures Leads(bucket, w, es + [e], Apply(bucket, t, e), v, fleet)
  {
    hide FixedFleet, KeepsFleet, Apply;
    var fs := es + [e];
    assert fs[..|fs| - 1] == es;
    forall n | 0 <= n <= |fs| ensures FixedFleet(Run(bucket, w, fs[..n]), v, fleet) {
      if n == |fs| {
        assert fs[..n] == fs;
      } else {
        assert fs[..n] == es[..n];
      }
    }
  }

  lemma Nowhere(bucket: Buckets, w: World, v: Version, fleet: seq<Candidate>)
    requires FixedFleet(w, v, fleet)
    ensures Leads(bucket, w, [], w, v, fleet)
  {
    hide FixedFleet;
    var es: seq<Event> := [];
    assert forall n :: 0 <= n <= |es| ==> es[..n] == [];
  }

  /** `n` accesses of the job alone. */
  ghost function Accesses(bucket: Buckets, w: World, n: nat): World
    decreases n
  {
    if n == 0 then w else Apply(bucket, Accesses(bucket, w, n - 1), JobAccess)
  }

  lemma {:induction false} OnwardByAccesses(
      bucket: Buckets, w: World, es: seq<Event>, t: World, n: nat, v: Version, fleet: seq<Candidate>)
    returns (fs: seq<Event>)
    requires Leads(bucket, w, es, t, v, fleet)
    requires forall i :: 0 <= i <= n ==> FixedFleet(Accesses(bucket, t, i), v, fleet)
    ensures Leads(bucket, w, fs, Accesses(bucket, t, n), v, fleet)
    decreases n
  {
    hide Leads, FixedFleet, Apply;
    if n == 0 {
      fs := es;
    } else {
      var before := OnwardByAccesses(bucket, w, es, t, n - 1, v, fleet);
      assert FixedFleet(Accesses(bucket, t, n), v, fleet);
      Onward(bucket, w, before, Accesses(bucket, t, n - 1), JobAccess, v, fleet);
      fs := before + [JobAccess];
    }
  }

  lemma {:induction false} Trail(bucket: Buckets, ts: seq<World>, n: nat)
    requires n < |ts| && forall i :: 0 <= i < n ==> ts[i + 1] == Apply(bucket, ts[i], JobAccess)
    ensures Accesses(bucket, ts[0], n) == ts[n]
  {
    hide Apply;
    if n == 0 {
    } else {
      Trail(bucket, ts, n - 1);
      assert ts[n - 1 + 1] == Apply(bucket, ts[n - 1], JobAccess);
    }
  }

  lemma {:induction false} AccessesKeepEnv(bucket: Buckets, w: World, n: nat)
    ensures Accesses(bucket, w, n).env == w.env
    decreases n
  {
    if n == 0 {
    } else {
      AccessesKeepEnv(bucket, w, n - 1);
      AccessKeepsEnv(bucket, Accesses(bucket, w, n - 1));
    }
  }

  lemma AccessKeepsEnv(bucket: Buckets, w: World)
    ensures Apply(bucket, w, JobAccess).env == w.env
  {
    hide GateTripped, StepHealth, Cut, StepAfter, Attempted, FindRolling, DwellOk, CloseRollout, WithdrawInactive,
      FailSilent, SetRow;
  }

  // ---------------------------------------------------------------- the first pass

  const ROW := Rollout(Rolling, 0, 0, None, None)

  function Settings(v: Version, canary: nat, candidates: seq<Candidate>): Env {
    Env(true, canary, Some(v), {}, {}, candidates)
  }

  function Empty(v: Version, fleet: seq<Candidate>): World {
    World(Db(map[], map[]), Settings(v, 100, fleet), Idle, map[], map[])
  }

  function Offered2(v: Version, a: Candidate, b: Candidate): map<Key, Attempt> {
    map[(v, a.server) := Attempt(Offered, a.currentVersion, 0, None),
        (v, b.server) := Attempt(Offered, b.currentVersion, 0, None)]
  }

  lemma NothingToSweep(v: Version)
    ensures var db := Db(map[v := ROW], map[]);
            && WithdrawInactive(db, v, {}) == db && FailSilent(db, v, 0) == db
            && StepHealth(db, v) == Health(0, 0, 0, 0) && Attempted(db, v) == {}
  {
    var db := Db(map[v := ROW], map[]);
    assert WithStatus(db, v, Failed) == WithStatus(db, v, RolledBack) == {};
    assert WithStatus(db, v, Verified) == WithStatus(db, v, Offered) == {};
    assert WithdrawInactive(db, v, {}).attempts == map[];
    assert FailSilent(db, v, 0).attempts == map[];
  }

  ghost predicate ThreeHosts(bucket: Buckets, v: Version, fleet: seq<Candidate>) {
    |fleet| == 3 && Distinct(fleet) && SortByBucket(bucket, v, fleet) == fleet
  }

  /** From the sweep to the cut, for a rollout in which there is nothing to sweep, to halt for or
      to wait for: four accesses that write nothing. */
  lemma SweepToSeen(bucket: Buckets, w: World, v: Version)
    requires w.job.Running? && w.job.pc == WithdrawStep(v, ROW) && w.env.inactive == {}
    requires WithdrawInactive(w.db, v, {}) == w.db && FailSilent(w.db, v, w.job.pass.now) == w.db
    requires StepHealth(w.db, v).failed == 0 && StepHealth(w.db, v).pending == 0
    ensures var t := Accesses(bucket, w, 4);
            && t.job.Running? && t.job.pc == ReadSeen(v, ROW, w.env.candidates) && t.job.pass == w.job.pass
            && t.steps == w.steps && t.reach == w.reach && t.db == w.db && t.env == w.env
  {
    var t4 := SweepQuiet(bucket, w, v, 4);
    hide *;
  }

  lemma SweepQuiet(bucket: Buckets, w: World, v: Version, i: nat) returns (t: World)
    requires w.job.Running? && w.job.pc == WithdrawStep(v, ROW) && w.env.inactive == {} && i <= 4
    requires WithdrawInactive(w.db, v, {}) == w.db && FailSilent(w.db, v, w.job.pass.now) == w.db
    requires StepHealth(w.db, v).failed == 0 && StepHealth(w.db, v).pending == 0
    ensures t == Accesses(bucket, w, i) && t.db == w.db && t.env == w.env
    ensures i == 4 ==>
              && t.job.Running? && t.job.pc == ReadSeen(v, ROW, w.env.candidates) && t.job.pass == w.job.pass
              && t.steps == w.steps && t.reach == w.reach
  {
    hide StepHealth, WithdrawInactive, FailSilent, Accesses, FindRolling, Attempted, Cut;
    var t1 := Apply(bucket, w, JobAccess);
    assert t1 == At(w, FailStep(v, ROW));
    var t2 := Apply(bucket, t1, JobAccess);
    assert t2 == At(w, Judge(v, ROW));
    var t3 := Apply(bucket, t2, JobAccess);
    assert t3.job.Running? && t3.job.pc == Widen(v, ROW) && t3.job.pass == w.job.pass;
    var t4 := Apply(bucket, t3, JobAccess);
    var ts := [w, t1, t2, t3, t4];
    Trail(bucket, ts, i);
    t := ts[i];
  }

  lemma {:induction false} AccessesAdd(bucket: Buckets, w: World, m: nat, n: nat)
    ensures Accesses(bucket, w, m + n) == Accesses(bucket, Accesses(bucket, w, m), n)
    decreases n
  {
    hide Apply;
    if n == 0 {
    } else {
      AccessesAdd(bucket, w, m, n - 1);
    }
  }

  /** The rollout is opened. */
  lemma FirstPassOpens(bucket: Buckets, v: Version, fleet: seq<Candidate>)
    requires fleet != []
    ensures var w := Apply(bucket, Empty(v, fleet), Start(0));
            var t := Accesses(bucket, w, 4);
            && t.db == Db(map[v := ROW], map[]) && t.env == w.env && t.steps == map[] && t.reach == map[]
            && t.job.Running? && t.job.pc == WithdrawStep(v, ROW) && t.job.pass == Pass(0, true, 100, Some(v))
  {
    hide Accesses, Attempted, Cut;
    var w := Apply(bucket, Empty(v, fleet), Start(0));
    var t1 := Apply(bucket, w, JobAccess);
    assert t1 == At(w, Seek(v));
    var t2 := Apply(bucket, t1, JobAccess);
    assert t2 == At(w, CheckPrevious(v));
    var t3 := Apply(bucket, t2, JobAccess);
    assert t3 == At(w, Create(v));
    var t4 := Apply(bucket, t3, JobAccess);
    assert t4.db == Db(map[v := ROW], map[]);
    Trail(bucket, [w, t1, t2, t3, t4], 4);
  }

  lemma FirstPassCuts(bucket: Buckets, w: World, v: Version, fleet: seq<Candidate>)
    requires ThreeHosts(bucket, v, fleet) && w.db == Db(map[v := ROW], map[])
    requires w.job.Running? && w.job.pc == ReadSeen(v, ROW, fleet) && w.job.pass == Pass(0, true, 100, Some(v))
    ensures var t := Accesses(bucket, w, 1);
            && t.db == w.db && t.env == w.env && t.steps == w.steps
            && t.job.Running? && t.job.pc == Offer(v, 100, fleet, 0, fleet, 0) && t.job.pass == w.job.pass
  {
    hide SortByBucket, Distinct, Attempted;
    NothingToSweep(v);
    assert Accesses(bucket, w, 0) == w;
    assert Cut(bucket, v, fleet, 0, 100) == fleet;
  }

  /** Up to the offer loop. */
  lemma FirstPassStarts(bucket: Buckets, v: Version, fleet: seq<Candidate>)
    requires ThreeHosts(bucket, v, fleet)
    ensures var w := Apply(bucket, Empty(v, fleet), Start(0));
            var t := Accesses(bucket, w, 9);
            && t.db == Db(map[v := ROW], map[]) && t.env == w.env && t.steps == map[]
            && t.job.Running? && t.job.pc == Offer(v, 100, fleet, 0, fleet, 0)
            && t.job.pass == Pass(0, true, 100, Some(v))
  {
    var w := Apply(bucket, Empty(v, fleet), Start(0));
    hide Accesses, StepHealth, WithdrawInactive, FailSilent, Attempted, SortByBucket, Distinct, JobStep;
    FirstPassOpens(bucket, v, fleet);
    NothingToSweep(v);
    var t4 := Accesses(bucket, w, 4);
    SweepToSeen(bucket, t4, v);
    AccessesAdd(bucket, w, 4, 4);
    FirstPassCuts(bucket, Accesses(bucket, t4, 4), v, fleet);
    AccessesAdd(bucket, w, 8, 1);
  }

  lemma TwoOffers(bucket: Buckets, w: World, v: Version, fleet: seq<Candidate>)
    requires |fleet| == 3 && fleet[0].server != fleet[1].server
    requires w.job.Running? && w.job.pc == Offer(v, 100, fleet, 0, fleet, 0) && w.job.pass.now == 0
    requires w.db == Db(map[v := ROW], map[]) && w.env.failing == {}
    ensures var t := Accesses(bucket, w, 2);
            t.db == Db(map[v := ROW], Offered2(v, fleet[0], fleet[1])) && t.steps == w.steps
  {
    hide Accesses;
    var t1 := Apply(bucket, w, JobAccess);
    assert t1.job.pc.todo == fleet[1..] && fleet[1..][0] == fleet[1];
    assert t1.db.attempts == map[(v, fleet[0].server) := Attempt(Offered, fleet[0].currentVersion, 0, None)];
    Trail(bucket, [w, t1, Apply(bucket, t1, JobAccess)], 2);
  }

  // ---------------------------------------------------------------- the second pass

  function Verified2(v: Version, a: Candidate, b: Candidate): map<Key, Attempt> {
    map[(v, a.server) := Attempt(Verified, a.currentVersion, 0, Some(0)),
        (v, b.server) := Attempt(Verified, b.currentVersion, 0, Some(0))]
  }

  lemma TwoVerified(v: Version, a: Candidate, b: Candidate)
    requires a.server != b.server
    ensures var db := Db(map[v := ROW], Verified2(v, a, b));
            && WithdrawInactive(db, v, {}) == db && FailSilent(db, v, 0) == db
            && StepHealth(db, v) == Health(2, 0, 2, 0) && Attempted(db, v) == {a.server, b.server}
  {
    var db := Db(map[v := ROW], Verified2(v, a, b));
    assert WithStatus(db, v, Failed) == WithStatus(db, v, RolledBack) == WithStatus(db, v, Offered) == {};
    assert WithStatus(db, v, Verified) == {(v, a.server), (v, b.server)};
    assert WithdrawInactive(db, v, {}).attempts == db.attempts;
    assert FailSilent(db, v, 0).attempts == db.attempts;
    assert (v, a.server) in db.attempts && (v, b.server) in db.attempts;
  }

  lemma SecondPassOpens(bucket: Buckets, w: World, v: Version)
    requires !w.job.Running? && w.env.autoUpdate && w.env.target == Some(v)
    requires w.db.rollouts == map[v := ROW]
    ensures var t0 := Apply(bucket, w, Start(0));
            var t := Accesses(bucket, t0, 1);
            && t.db == w.db && t.env == w.env && t0.db == w.db && t0.env == w.env
            && t.job.Running? && t.job.pc == WithdrawStep(v, ROW) && t.job.pass == Pass(0, true, w.env.canary, Some(v))
  {
    hide Attempted, Cut;
    var t0 := Apply(bucket, w, Start(0));
    assert IsRolling(w.db, v) && FindRolling(w.db) == Some(v);
    assert Accesses(bucket, t0, 0) == t0;
  }

  lemma SecondPassEnds(bucket: Buckets, w: World, v: Version, a: Candidate, b: Candidate, c: Candidate)
    requires a.server != b.server && w.db == Db(map[v := ROW], Verified2(v, a, b))
    requires w.job.Running? && w.job.pc == ReadSeen(v, ROW, [c]) && w.job.pass == Pass(0, true, 10, Some(v))
    ensures var t := Accesses(bucket, w, 1);
            && t.db == w.db && t.env == w.env
            && t.job.Running? && t.job.pc == Offer(v, 10, [], 0, [c], 2) && t.job.pass == w.job.pass
  {
    hide SortByBucket, Attempted;
    TwoVerified(v, a, b);
    assert Accesses(bucket, w, 0) == w;
    assert |{a.server, b.server}| == 2 && CohortSize(3, 10) == 1;
  }

  lemma SecondPassQuiet(
      bucket: Buckets, w: World, v: Version, a: Candidate, b: Candidate, c: Candidate, i: nat)
    returns (t: World)
    requires a.server != b.server && !w.job.Running? && w.env == Settings(v, 10, [c])
    requires w.db == Db(map[v := ROW], Verified2(v, a, b)) && i <= 6
    ensures t == Accesses(bucket, Apply(bucket, w, Start(0)), i) && t.db == w.db && t.env == w.env
    ensures i == 6 ==> t.job.Running? && t.job.pc == Offer(v, 10, [], 0, [c], 2) && t.job.pass.now == 0
  {
    var t0 := Apply(bucket, w, Start(0));
    assert Accesses(bucket, t0, 0) == t0;
    hide Accesses, StepHealth, WithdrawInactive, FailSilent, Attempted, SortByBucket, JobStep, Verified2;
    SecondPassOpens(bucket, w, v);
    TwoVerified(v, a, b);
    var t1 := Accesses(bucket, t0, 1);
    if i == 0 {
      t := t0;
    } else if i <= 5 {
      t := SweepQuiet(bucket, t1, v, i - 1);
      AccessesAdd(bucket, t0, 1, i - 1);
    } else {
      var t5 := SweepQuiet(bucket, t1, v, 4);
      AccessesAdd(bucket, t0, 1, 4);
      SecondPassEnds(bucket, t5, v, a, b, c);
      AccessesAdd(bucket, t0, 5, 1);
      t := Accesses(bucket, t5, 1);
    }
  }

  lemma SecondPassCuts(bucket: Buckets, w: World, v: Version, a: Candidate, b: Candidate, c: Candidate)
    requires a.server != b.server && !w.job.Running? && w.env == Settings(v, 10, [c])
    requires w.db == Db(map[v := ROW], Verified2(v, a, b))
    ensures var t := Accesses(bucket, Apply(bucket, w, Start(0)), 6);
            t.job.Running? && t.job.pc == Offer(v, 10, [], 0, [c], 2) && t.job.pass.now == 0
    ensures forall i :: 0 <= i <= 6 ==>
              var t := Accesses(bucket, Apply(bucket, w, Start(0)), i); t.db == w.db && t.env == w.env
  {
    var t0 := Apply(bucket, w, Start(0));
    hide *;
    forall i | 0 <= i <= 6
      ensures Accesses(bucket, t0, i).db == w.db && Accesses(bucket, t0, i).env == w.env
    {
      var t := SecondPassQuiet(bucket, w, v, a, b, c, i);
    }
    var t6 := SecondPassQuiet(bucket, w, v, a, b, c, 6);
  }

  // ---------------------------------------------------------------- the whole run

  lemma Disturb(bucket: Buckets, w: World, v: Version, a: Candidate, b: Candidate, c: Candidate)
    requires a.server != b.server && w.db == Db(map[v := ROW], Offered2(v, a, b)) && w.env.inactive == {}
    ensures var t1 := Apply(bucket, w, Crash);
            var t2 := Apply(bucket, t1, Change(Settings(v, 10, [c])));
            var t3 := Apply(bucket, t2, Report(v, a.server, OnTarget, 0));
            var t4 := Apply(bucket, t3, Report(v, b.server, OnTarget, 0));
            && !t4.job.Running? && t4.env == Settings(v, 10, [c]) && t4.db == Db(map[v := ROW], Verified2(v, a, b))
            && t2.db == w.db && Attempted(w.db, v) == {a.server, b.server} == Attempted(t3.db, v)
  {
    var t4 := Apply(bucket, Apply(bucket, Apply(bucket, w, Crash), Change(Settings(v, 10, [c]))),
                    Report(v, a.server, OnTarget, 0));
    assert (v, a.server) in w.db.attempts && (v, b.server) in w.db.attempts;
    assert (v, a.server) in t4.db.attempts && (v, b.server) in t4.db.attempts;
  }

  lemma LastHostIsAView(bucket: Buckets, v: Version, fleet: seq<Candidate>)
    requires ThreeHosts(bucket, v, fleet)
    ensures fleet[0].server != fleet[1].server
    ensures {fleet[0].server, fleet[1].server} == FirstHosts(bucket, v, fleet, 2)
    ensures Ids([fleet[2]]) !! {fleet[0].server, fleet[1].server}
    ensures ViewOf(fleet, {fleet[0].server, fleet[1].server}, [fleet[2]])
  {
    var a, b, c := fleet[0], fleet[1], fleet[2];
    assert fleet == [a] + [b] + [c] && fleet[..2] == [a] + [b];
    IdsConcat([a], [b]);
    IdsConcat([a] + [b], [c]);
    OneId(a);
    OneId(b);
    OneId(c);
    DistinctConcat([a] + [b], [c]);
    DistinctConcat([a], [b]);
    RestrictConcat([a] + [b], [c], {c.server});
    RestrictConcat([a], [b], {c.server});
  }

  lemma OneId(c: Candidate)
    ensures Ids([c]) == {c.server}
  {
    assert [c][1..] == [];
  }

  /** While the whole fleet is listed, every world is one of the fixed fleet. */
  lemma WholeFleetFixed(w: World, v: Version, fleet: seq<Candidate>)
    requires w.env.candidates == fleet && w.env.failing == {}
    ensures FixedFleet(w, v, fleet)
  {
    WholeFleetIsAView(fleet, Attempted(w.db, v));
  }

  lemma AllFixed(bucket: Buckets, w: World, n: nat, v: Version, fleet: seq<Candidate>)
    requires w.env.candidates == fleet && w.env.failing == {}
    ensures forall i :: 0 <= i <= n ==> FixedFleet(Accesses(bucket, w, i), v, fleet)
  {
    hide FixedFleet, Accesses;
    forall i | 0 <= i <= n ensures FixedFleet(Accesses(bucket, w, i), v, fleet) {
      AccessesKeepEnv(bucket, w, i);
      WholeFleetFixed(Accesses(bucket, w, i), v, fleet);
    }
  }

  lemma FirstHalf(bucket: Buckets, v: Version, fleet: seq<Candidate>) returns (es: seq<Event>, t: World)
    requires ThreeHosts(bucket, v, fleet)
    ensures Leads(bucket, Empty(v, fleet), es, t, v, fleet) && t.env == Settings(v, 100, fleet)
    ensures t.db == Db(map[v := ROW], Offered2(v, fleet[0], fleet[1]))
  {
    hide SortByBucket, Distinct, Accesses, FixedFleet, Leads, Offered2;
    var w := Empty(v, fleet);
    WholeFleetFixed(w, v, fleet);
    Nowhere(bucket, w, v, fleet);
    var t0 := Apply(bucket, w, Start(0));
    WholeFleetFixed(t0, v, fleet);
    Onward(bucket, w, [], w, Start(0), v, fleet);
    FirstPassStarts(bucket, v, fleet);
    var t1 := Accesses(bucket, t0, 9);
    LastHostIsAView(bucket, v, fleet);
    TwoOffers(bucket, t1, v, fleet);
    AllFixed(bucket, t0, 9, v, fleet);
    es := OnwardByAccesses(bucket, w, [] + [Start(0)], t0, 9, v, fleet);
    AllFixed(bucket, t1, 2, v, fleet);
    AccessesKeepEnv(bucket, t1, 2);
    es := OnwardByAccesses(bucket, w, es, t1, 2, v, fleet);
    t := Accesses(bucket, t1, 2);
  }

  lemma LastHostFixed(bucket: Buckets, w: World, v: Version, fleet: seq<Candidate>)
    requires ThreeHosts(bucket, v, fleet) && w.env == Settings(v, 10, [fleet[2]])
    requires Attempted(w.db, v) == {fleet[0].server, fleet[1].server}
    ensures FixedFleet(w, v, fleet)
  {
    LastHostIsAView(bucket, v, fleet);
  }

  /** The pass dies, the canary is lowered, and the two hosts report success. */
  lemma Disturbed(bucket: Buckets, w: World, es: seq<Event>, t: World, v: Version, fleet: seq<Candidate>)
    returns (fs: seq<Event>, u: World)
    requires ThreeHosts(bucket, v, fleet) && Leads(bucket, w, es, t, v, fleet) && t.env == Settings(v, 100, fleet)
    requires t.db == Db(map[v := ROW], Offered2(v, fleet[0], fleet[1]))
    ensures Leads(bucket, w, fs, u, v, fleet) && !u.job.Running? && u.env == Settings(v, 10, [fleet[2]])
    ensures u.db == Db(map[v := ROW], Verified2(v, fleet[0], fleet[1]))
  {
    hide FixedFleet, Leads, SortByBucket, Distinct, Attempted, Offered2, Verified2;
    var a, b, c := fleet[0], fleet[1], fleet[2];
    LastHostIsAView(bucket, v, fleet);
    Disturb(bucket, t, v, a, b, c);
    TwoVerified(v, a, b);
    var t1 := Apply(bucket, t, Crash);
    WholeFleetFixed(t1, v, fleet);
    Onward(bucket, w, es, t, Crash, v, fleet);
    var change := Change(Settings(v, 10, [c]));
    var t2 := Apply(bucket, t1, change);
    LastHostFixed(bucket, t2, v, fleet);
    Onward(bucket, w, es + [Crash], t1, change, v, fleet);
    var t3 := Apply(bucket, t2, Report(v, a.server, OnTarget, 0));
    LastHostFixed(bucket, t3, v, fleet);
    Onward(bucket, w, es + [Crash] + [change], t2, Report(v, a.server, OnTarget, 0), v, fleet);
    fs := es + [Crash] + [change] + [Report(v, a.server, OnTarget, 0)];
    u := Apply(bucket, t3, Report(v, b.server, OnTarget, 0));
    LastHostFixed(bucket, u, v, fleet);
    Onward(bucket, w, fs, t3, Report(v, b.server, OnTarget, 0), v, fleet);
    fs := fs + [Report(v, b.server, OnTarget, 0)];
  }

  /** Three hosts, none shown twice: the first pass, at 100 percent, dies after two offers; the
      canary is lowered to 10 percent; the next pass offers to nobody and records 10 percent,
      which is one host, where two have been attempted. */
  lemma LoweredCanaryOvershoots(bucket: Buckets, v: Version, fleet: seq<Candidate>) returns (w: World, es: seq<Event>)
    requires ThreeHosts(bucket, v, fleet)
    ensures Initial(w) && FleetRun(bucket, w, es, v, fleet) && Recording(Run(bucket, w, es), v)
    ensures var t := Run(bucket, w, es);
            var w' := Apply(bucket, t, JobAccess);
            && v in w'.db.rollouts && w'.db.rollouts[v].percent == 10 && CohortSize(3, 10) == 1
            && t.job.pc.seen == 2 && Again(bucket, v, fleet, 2, t.job.pc.cands) == {}
            && Attempted(w'.db, v) == FirstHosts(bucket, v, fleet, 2) != FirstHosts(bucket, v, fleet, 1)
  {
    hide Accesses, FixedFleet, Leads, SortByBucket, Distinct, FirstHosts;
    w := Empty(v, fleet);
    var t: World;
    es, t := FirstHalf(bucket, v, fleet);
    var a, b, c := fleet[0], fleet[1], fleet[2];
    LastHostIsAView(bucket, v, fleet);
    FirstHostsInjective(bucket, v, fleet, 1, 2);
    TwoVerified(v, a, b);
    es, t := Disturbed(bucket, w, es, t, v, fleet);
    var t0 := Apply(bucket, t, Start(0));
    SecondPassCuts(bucket, t, v, a, b, c);
    LastHostFixed(bucket, t0, v, fleet);
    Onward(bucket, w, es, t, Start(0), v, fleet);
    forall i | 0 <= i <= 6 ensures FixedFleet(Accesses(bucket, t0, i), v, fleet) {
      LastHostFixed(bucket, Accesses(bucket, t0, i), v, fleet);
    }
    es := OnwardByAccesses(bucket, w, es + [Start(0)], t0, 6, v, fleet);
    Recorded10(bucket, Accesses(bucket, t0, 6), v, c);
    Arrived(bucket, w, es, Accesses(bucket, t0, 6), v, fleet);
  }

  lemma Arrived(bucket: Buckets, w: World, es: seq<Event>, t: World, v: Version, fleet: seq<Candidate>)
    requires Leads(bucket, w, es, t, v, fleet)
    ensures Run(bucket, w, es) == t && FleetRun(bucket, w, es, v, fleet)
  {
  }

  lemma Recorded10(bucket: Buckets, w: World, v: Version, c: Candidate)
    requires w.job.Running? && w.job.pc == Offer(v, 10, [], 0, [c], 2) && v in w.db.rollouts
    ensures var w' := Apply(bucket, w, JobAccess);
            w'.db.attempts == w.db.attempts && v in w'.db.rollouts && w'.db.rollouts[v].percent == 10
  {
  }
}
