/** The staged collector rollout of one organization: `advanceOrg` as a machine that makes one
    database access per step, so that host reports, deactivations, setting changes and a process
    that dies can fall between any two of them. */
module CollectorRollout {
  import opened Wrappers
  import opened CohortOrder

  const VERIFY_GRACE_MS: int := 45 * 60 * 1000
  const STEP_DWELL_MS: int := 30 * 60 * 1000
  const MIN_FAILURES_TO_HALT: int := 2

  // ---------------------------------------------------------------- tables

  datatype RolloutStatus = Rolling | Halted | Complete | Cancelled

  /** A rollout row; unique per (organization, target version), so the version names it. */
  datatype Rollout = Rollout(
    status: RolloutStatus, percent: int, startedAt: int, lastStepAt: Option<int>, completedAt: Option<int>)

  /** `Withdrawn` is the attempt status the database spells 'cancelled'. */
  datatype AttemptStatus = Offered | Verified | RolledBack | Failed | Withdrawn

  datatype Attempt = Attempt(status: AttemptStatus, fromVersion: string, offeredAt: int, reportedAt: Option<int>)

  /** Attempts are unique per (rollout, server). */
  type Key = (Version, ServerId)

  datatype Db = Db(rollouts: map<Version, Rollout>, attempts: map<Key, Attempt>)

  ghost function Attempted(db: Db, v: Version): set<ServerId> {
    set k | k in db.attempts && k.0 == v :: k.1
  }

  function WithStatus(db: Db, v: Version, st: AttemptStatus): set<Key> {
    set k | k in db.attempts && k.0 == v && db.attempts[k].status == st
  }

  predicate IsRolling(db: Db, v: Version) {
    v in db.rollouts && db.rollouts[v].status.Rolling?
  }

  /** `findFirst({ status: 'rolling' })`. */
  ghost function FindRolling(db: Db): (r: Option<Version>)
    ensures r.None? <==> NoneRolling(db)
    ensures r.Some? ==> IsRolling(db, r.value)
  {
    if v :| v in db.rollouts && db.rollouts[v].status.Rolling? then Some(v) else None
  }

  // ---------------------------------------------------------------- statements

  function CloseRollout(db: Db, v: Version, status: RolloutStatus, now: int): Db
    requires v in db.rollouts
  {
    Db(db.rollouts[v := db.rollouts[v].(status := status, completedAt := Some(now))],
       map k | k in db.attempts ::
         if k.0 == v && db.attempts[k].status.Offered? then db.attempts[k].(status := Withdrawn)
         else db.attempts[k])
  }

  function WithdrawInactive(db: Db, v: Version, inactive: set<ServerId>): Db {
    db.(attempts := map k | k in db.attempts ::
      if k.0 == v && db.attempts[k].status.Offered? && k.1 in inactive then db.attempts[k].(status := Withdrawn)
      else db.attempts[k])
  }

  function FailSilent(db: Db, v: Version, now: int): Db {
    db.(attempts := map k | k in db.attempts ::
      var a := db.attempts[k];
      if k.0 == v && a.status.Offered? && a.offeredAt < now - VERIFY_GRACE_MS && a.reportedAt.None?
      then a.(status := Failed) else a)
  }

  datatype Health = Health(judged: nat, failed: nat, verified: nat, pending: nat)

  function StepHealth(db: Db, v: Version): Health {
    var failed := |WithStatus(db, v, Failed)| + |WithStatus(db, v, RolledBack)|;
    var verified := |WithStatus(db, v, Verified)|;
    Health(verified + failed, failed, verified, |WithStatus(db, v, Offered)|)
  }

  /** At least two failures and more than a fifth of the judged hosts (`rate > 0.2`). */
  predicate GateTripped(h: Health) {
    h.failed >= MIN_FAILURES_TO_HALT && 5 * h.failed > h.judged
  }

  predicate DwellOk(lastStepAt: Option<int>, now: int) {
    lastStepAt.None? || now - lastStepAt.value >= STEP_DWELL_MS
  }

  /** `Math.min(settings.collectorCanaryPercent || 10, 100)`. */
  function FirstStep(canary: nat): (p: int)
    ensures 1 <= p <= 100
  {
    if canary == 0 then 10 else if canary <= 100 then canary else 100
  }

  function StepAfter(percent: int, canary: nat): Step {
    if percent == 0 then Percent(FirstStep(canary)) else NextPercent(percent)
  }

  // ---------------------------------------------------------------- the machine

  /** What the job reads but does not own. */
  datatype Env = Env(
    autoUpdate: bool, canary: nat, target: Option<Version>,
    inactive: set<ServerId>, failing: set<ServerId>, candidates: seq<Candidate>)

  datatype Action =
    | DidCancel | Disabled | NoTarget | NothingToDo | PreviouslyEnded | DidHalt | Waiting | Dwelling
    | DidComplete | Stepped(percent: int, offered: nat)

  /** The next database access of the pass. */
  datatype Pc =
    | Open
    | Seek(v: Version)
    | CheckPrevious(v: Version)
    | Create(v: Version)
    | Close(v: Version, status: RolloutStatus)
    | WithdrawStep(v: Version, row: Rollout)
    | FailStep(v: Version, row: Rollout)
    | Judge(v: Version, row: Rollout)
    | Widen(v: Version, row: Rollout)
    | ReadSeen(v: Version, row: Rollout, cands: seq<Candidate>)
    | Finish(v: Version, percent: int)
    | Offer(v: Version, step: int, todo: seq<Candidate>, offered: nat, cands: seq<Candidate>, seen: nat)

  datatype Pass = Pass(now: int, autoUpdate: bool, canary: nat, target: Option<Version>)

  /** `at` is the database as the pass judged it. */
  datatype Job = Idle | Running(pass: Pass, pc: Pc, at: Db) | Done(action: Action)

  datatype StepRecord = StepRecord(percent: int, at: int)

  /** `steps` and `reach` are history: the recorded steps of each rollout, and the largest step
      any cohort was cut for. */
  datatype World = World(
    db: Db, env: Env, job: Job, steps: map<Version, seq<StepRecord>>, reach: map<Version, int>)

  ghost function Steps(w: World, v: Version): seq<StepRecord> { if v in w.steps then w.steps[v] else [] }
  ghost function Reach(w: World, v: Version): int { if v in w.reach then w.reach[v] else 0 }

  function At(w: World, pc: Pc): World
    requires w.job.Running?
  {
    w.(job := w.job.(pc := pc))
  }

  ghost function AfterOpen(w: World): World
    requires w.job.Running?
  {
    var p, open := w.job.pass, FindRolling(w.db);
    if !p.autoUpdate then
      if open.Some? then At(w, Close(open.value, Cancelled)) else w.(job := Done(Disabled))
    else if p.target.None? then w.(job := Done(NoTarget))
    else if open.None? then At(w, Seek(p.target.value))
    else if open.value != p.target.value then At(w, Close(open.value, Cancelled))
    else At(w, WithdrawStep(open.value, w.db.rollouts[open.value]))
  }

  function AfterJudge(w: World, v: Version, row: Rollout): World
    requires w.job.Running?
  {
    var h, j := StepHealth(w.db, v), w.(job := w.job.(at := w.db));
    if GateTripped(h) then At(j, Close(v, Halted))
    else if h.pending > 0 then w.(job := Done(Waiting))
    else if !DwellOk(row.lastStepAt, w.job.pass.now) then w.(job := Done(Dwelling))
    else At(j, Widen(v, row))
  }

  ghost function AfterSeen(bucket: Buckets, w: World, v: Version, row: Rollout, cands: seq<Candidate>): World
    requires w.job.Running?
  {
    var seen := |Attempted(w.db, v)|;
    if cands == [] && seen > 0 then At(w, Finish(v, 100))
    else match StepAfter(row.percent, w.job.pass.canary)
      case NoStep => At(w, Finish(v, row.percent))
      case Percent(step) =>
        At(w, Offer(v, step, Cut(bucket, v, cands, seen, step), 0, cands, seen))
        .(reach := w.reach[v := Max(Reach(w, v), step)])
  }

  /** `create` fails on the unique (rollout, server) and for the hosts in `failing`; either way
      the loop goes on. */
  function AfterOffer(w: World, v: Version, c: Candidate): (World, nat)
    requires w.job.Running?
  {
    if (v, c.server) in w.db.attempts || c.server in w.env.failing then (w, 0)
    else
      var attempt := Attempt(Offered, c.currentVersion, w.job.pass.now, None);
      (w.(db := w.db.(attempts := w.db.attempts[(v, c.server) := attempt])), 1)
  }

  function SetRow(db: Db, v: Version, row: Rollout): Db { db.(rollouts := db.rollouts[v := row]) }

  /** One database access of `advanceOrg`. */
  ghost function JobStep(bucket: Buckets, w: World): World
    requires w.job.Running?
  {
    var now := w.job.pass.now;
    match w.job.pc
    case Open => AfterOpen(w)
    case Seek(v) =>
      if w.env.candidates == [] then w.(job := Done(NothingToDo)) else At(w, CheckPrevious(v))
    case CheckPrevious(v) =>
      if v in w.db.rollouts then w.(job := Done(PreviouslyEnded)) else At(w, Create(v))
    case Create(v) =>
      var row := Rollout(Rolling, 0, now, None, None);
      At(w.(db := SetRow(w.db, v, row)), WithdrawStep(v, row))
    case Close(v, status) =>
      if v !in w.db.rollouts then w.(job := Idle)
      else w.(db := CloseRollout(w.db, v, status, now), job := Done(if status.Halted? then DidHalt else DidCancel))
    case WithdrawStep(v, row) =>
      At(w.(db := WithdrawInactive(w.db, v, w.env.inactive)), FailStep(v, row))
    case FailStep(v, row) =>
      At(w.(db := FailSilent(w.db, v, now)), Judge(v, row))
    case Judge(v, row) => AfterJudge(w, v, row)
    case Widen(v, row) => At(w, ReadSeen(v, row, w.env.candidates))
    case ReadSeen(v, row, cands) => AfterSeen(bucket, w, v, row, cands)
    case Finish(v, percent) =>
      if v !in w.db.rollouts then w.(job := Idle)
      else
        var row := w.db.rollouts[v].(status := Complete, percent := percent, completedAt := Some(now));
        w.(db := SetRow(w.db, v, row), job := Done(DidComplete))
    case Offer(v, step, todo, offered, cands, seen) =>
      if todo != [] then
        var (w', n) := AfterOffer(w, v, todo[0]);
        At(w', Offer(v, step, todo[1..], offered + n, cands, seen))
      else if v !in w.db.rollouts then w.(job := Idle)
      else
        var row := w.db.rollouts[v].(percent := step, lastStepAt := Some(now));
        w.(db := SetRow(w.db, v, row), job := Done(Stepped(step, offered)),
           steps := w.steps[v := Steps(w, v) + [StepRecord(step, now)]])
  }

  /** What an access of the job writes, whatever it goes on to do. */
  ghost function Written(w: World): Db
    requires w.job.Running?
  {
    var db, now := w.db, w.job.pass.now;
    match w.job.pc
    case Create(v) => SetRow(db, v, Rollout(Rolling, 0, now, None, None))
    case Close(v, status) => if v in db.rollouts then CloseRollout(db, v, status, now) else db
    case WithdrawStep(v, _) => WithdrawInactive(db, v, w.env.inactive)
    case FailStep(v, _) => FailSilent(db, v, now)
    case Finish(v, percent) =>
      if v in db.rollouts
      then SetRow(db, v, db.rollouts[v].(status := Complete, percent := percent, completedAt := Some(now))) else db
    case Offer(v, step, todo, _, _, _) =>
      if todo != [] then AfterOffer(w, v, todo[0]).0.db
      else if v in db.rollouts then SetRow(db, v, db.rollouts[v].(percent := step, lastStepAt := Some(now)))
      else db
    case _ => db
  }

  lemma StepWrites(bucket: Buckets, w: World)
    requires w.job.Running?
    ensures JobStep(bucket, w).db == Written(w)
  {
    hide GateTripped, StepHealth, Cut, Attempted, StepAfter, CloseRollout, WithdrawInactive, FailSilent, SetRow,
      FindRolling, AfterOffer, DwellOk;
  }

  /** A report writes to a row it read earlier, so it can reach an attempt of any status. */
  datatype Outcome = OnTarget | StillOld | Reverted

  function ReportWrite(a: Attempt, o: Outcome, now: int): Attempt {
    match o
    case OnTarget => a.(status := Verified, reportedAt := Some(now))
    case StillOld => a.(reportedAt := Some(now))
    case Reverted => a.(status := RolledBack, reportedAt := Some(now))
  }

  datatype Event =
    | Start(now: int)
    | JobAccess
    | Crash
    | Change(env: Env)
    | Report(v: Version, server: ServerId, outcome: Outcome, now: int)
    | DeleteServer(server: ServerId)

  ghost function Apply(bucket: Buckets, w: World, e: Event): World {
    match e
    case Start(now) =>
      if w.job.Running? then w
      else w.(job := Running(Pass(now, w.env.autoUpdate, w.env.canary, w.env.target), Open, w.db))
    case JobAccess => if w.job.Running? then JobStep(bucket, w) else w
    case Crash => w.(job := Idle)
    case Change(env) => w.(env := env)
    case Report(v, s, o, now) =>
      if (v, s) !in w.db.attempts then w
      else w.(db := w.db.(attempts := w.db.attempts[(v, s) := ReportWrite(w.db.attempts[(v, s)], o, now)]))
    case DeleteServer(s) =>
      w.(db := w.db.(attempts := map k | k in w.db.attempts && k.1 != s :: w.db.attempts[k]))
  }

  /** The world after a run; a run is any interleaving of job accesses and outside events. */
  ghost function Run(bucket: Buckets, w: World, es: seq<Event>): World
    decreases |es|
  {
    if es == [] then w else Apply(bucket, Run(bucket, w, es[..|es| - 1]), es[|es| - 1])
  }

  ghost predicate Initial(w: World) {
    w.db == Db(map[], map[]) && w.job.Idle? && w.steps == map[] && w.reach == map[]
  }

  // ---------------------------------------------------------------- what every step keeps

  ghost predicate OneRolling(db: Db) {
    forall u, v | u in db.rollouts && v in db.rollouts ::
      db.rollouts[u].status.Rolling? && db.rollouts[v].status.Rolling? ==> u == v
  }

  ghost predicate OffersLive(db: Db) {
    forall k :: k in db.attempts ==>
      k.0 in db.rollouts && (db.attempts[k].status.Offered? ==> db.rollouts[k.0].status.Rolling?)
  }

  ghost predicate NoneRolling(db: Db) { forall v :: v in db.rollouts ==> !db.rollouts[v].status.Rolling? }

  ghost predicate NoneOffered(db: Db, v: Version) {
    forall k :: k in db.attempts && k.0 == v ==> !db.attempts[k].status.Offered?
  }

  ghost predicate Live(db: Db, v: Version, row: Rollout) {
    v in db.rollouts && db.rollouts[v] == row && row.status.Rolling?
  }

  /** Why the pass may widen: as it judged the rollout, nobody was pending, the failure gate had
      not tripped and the dwell time had passed. */
  ghost predicate MayWiden(at: Db, v: Version, now: int) {
    && v in at.rollouts
    && NoneOffered(at, v)
    && !GateTripped(StepHealth(at, v))
    && DwellOk(at.rollouts[v].lastStepAt, now)
  }

  /** `r` may follow the steps `s`. */
  ghost predicate MayFollow(s: seq<StepRecord>, r: StepRecord) {
    && 1 <= r.percent <= 100
    && (s != [] ==>
          var last := s[|s| - 1];
          r.percent in PERCENT_STEPS && r.percent > last.percent && r.at - last.at >= STEP_DWELL_MS)
  }

  ghost predicate Paced(s: seq<StepRecord>) {
    s == [] || (Paced(s[..|s| - 1]) && MayFollow(s[..|s| - 1], s[|s| - 1]))
  }

  ghost predicate StepsMatch(row: Rollout, s: seq<StepRecord>) {
    if s == [] then row.lastStepAt.None? && (row.status.Rolling? ==> row.percent == 0)
    else row.lastStepAt == Some(s[|s| - 1].at) && (row.status.Rolling? ==> row.percent == s[|s| - 1].percent)
  }

  ghost predicate StepsInv(w: World) {
    && (forall v :: v in w.steps ==> Paced(w.steps[v]) && v in w.db.rollouts)
    && (forall v :: v in w.db.rollouts ==> StepsMatch(w.db.rollouts[v], Steps(w, v)))
  }

  ghost predicate JobInv(w: World) {
    w.job.Running? ==>
      var now, at := w.job.pass.now, w.job.at;
      match w.job.pc
      case Open => true
      case Seek(v) => NoneRolling(w.db)
      case CheckPrevious(v) => NoneRolling(w.db)
      case Create(v) => NoneRolling(w.db) && v !in w.db.rollouts
      case Close(v, status) =>
        && IsRolling(w.db, v) && (status.Halted? || status.Cancelled?)
        && (status.Halted? ==> GateTripped(StepHealth(at, v)))
        && (status.Cancelled? ==> !w.job.pass.autoUpdate || w.job.pass.target != Some(v))
      case WithdrawStep(v, row) => Live(w.db, v, row)
      case FailStep(v, row) => Live(w.db, v, row)
      case Judge(v, row) => Live(w.db, v, row)
      case Widen(v, row) => Live(w.db, v, row) && NoneOffered(w.db, v) && MayWiden(at, v, now) && at.rollouts[v] == row
      case ReadSeen(v, row, _) =>
        Live(w.db, v, row) && NoneOffered(w.db, v) && MayWiden(at, v, now) && at.rollouts[v] == row
      case Finish(v, percent) => IsRolling(w.db, v) && NoneOffered(w.db, v)
      case Offer(v, step, todo, _, _, _) =>
        IsRolling(w.db, v) && MayWiden(at, v, now) && MayFollow(Steps(w, v), StepRecord(step, now))
  }

  ghost predicate Inv(w: World) {
    OneRolling(w.db) && OffersLive(w.db) && StepsInv(w) && JobInv(w)
  }

  lemma InitialInv(w: World)
    requires Initial(w)
    ensures Inv(w)
  {
  }

  lemma EmptyMeansNoneOffered(db: Db, v: Version)
    requires StepHealth(db, v).pending == 0
    ensures NoneOffered(db, v)
  {
    assert WithStatus(db, v, Offered) == {};
    forall k | k in db.attempts && k.0 == v ensures !db.attempts[k].status.Offered? {
      assert k !in WithStatus(db, v, Offered);
    }
  }

  /** The attempts only lose rows or leave `Offered`, and no rollout row changes. */
  ghost predicate OffersShrink(db: Db, db': Db) {
    && db'.rollouts == db.rollouts
    && forall k :: k in db'.attempts ==>
         k in db.attempts && (db'.attempts[k].status.Offered? ==> db.attempts[k].status.Offered?)
  }

  lemma WithdrawShrinks(db: Db, v: Version, inactive: set<ServerId>)
    ensures OffersShrink(db, WithdrawInactive(db, v, inactive))
  {
  }

  lemma FailShrinks(db: Db, v: Version, now: int)
    ensures OffersShrink(db, FailSilent(db, v, now))
  {
  }

  lemma ShrinkKeepsInv(w: World, db': Db)
    requires Inv(w) && OffersShrink(w.db, db')
    ensures Inv(w.(db := db'))
  {
    hide GateTripped, StepHealth, MayWiden, MayFollow, Paced;
    assert forall v :: NoneOffered(w.db, v) ==> NoneOffered(db', v);
  }

  lemma StepMayFollow(row: Rollout, s: seq<StepRecord>, canary: nat, now: int, step: int)
    requires row.status.Rolling? && StepsMatch(row, s) && Paced(s) && DwellOk(row.lastStepAt, now)
    requires StepAfter(row.percent, canary) == Percent(step)
    ensures MayFollow(s, StepRecord(step, now))
  {
    assert forall p :: p in PERCENT_STEPS ==> 1 <= p <= 100;
  }

  lemma OpenKeepsInv(w: World)
    requires Inv(w) && w.job.Running? && w.job.pc == Open
    ensures Inv(AfterOpen(w))
  {
    hide GateTripped, StepHealth, MayWiden, MayFollow, Paced, StepsMatch;
  }

  lemma CreateKeepsInv(bucket: Buckets, w: World, v: Version)
    requires Inv(w) && w.job.Running? && w.job.pc == Create(v)
    ensures Inv(JobStep(bucket, w))
  {
    hide GateTripped, StepHealth, MayWiden, MayFollow, Paced;
  }

  lemma CloseKeepsInv(bucket: Buckets, w: World, v: Version, status: RolloutStatus)
    requires Inv(w) && w.job.Running? && w.job.pc == Close(v, status)
    ensures Inv(JobStep(bucket, w))
  {
    hide GateTripped, StepHealth, MayWiden, MayFollow, Paced;
  }

  /** A step that writes nothing has only to say where the pass goes on. */
  lemma ReadKeepsInv(w: World, t: World)
    requires Inv(w) && t.db == w.db && t.steps == w.steps && JobInv(t)
    ensures Inv(t)
  {
    hide JobInv, StepsMatch, Paced;
    assert forall v :: Steps(t, v) == Steps(w, v);
  }

  lemma JudgeLeads(w: World, v: Version, row: Rollout)
    requires JobInv(w) && w.job.Running? && w.job.pc == Judge(v, row)
    ensures JobInv(AfterJudge(w, v, row))
    ensures var t := AfterJudge(w, v, row); t.db == w.db && t.steps == w.steps
  {
    hide GateTripped, NoneOffered, MayFollow;
    if StepHealth(w.db, v).pending == 0 {
      EmptyMeansNoneOffered(w.db, v);
    }
    hide StepHealth;
  }

  lemma JudgeKeepsInv(w: World, v: Version, row: Rollout)
    requires Inv(w) && w.job.Running? && w.job.pc == Judge(v, row)
    ensures Inv(AfterJudge(w, v, row))
  {
    hide AfterJudge, JobInv, OneRolling, OffersLive, StepsInv;
    JudgeLeads(w, v, row);
    ReadKeepsInv(w, AfterJudge(w, v, row));
  }

  lemma StepsOf(w: World, v: Version)
    requires StepsInv(w) && v in w.db.rollouts
    ensures Paced(Steps(w, v)) && StepsMatch(w.db.rollouts[v], Steps(w, v))
  {
    hide StepsMatch;
    PacedEmpty();
  }

  lemma SeenLeads(bucket: Buckets, w: World, v: Version, row: Rollout, cands: seq<Candidate>)
    requires JobInv(w) && w.job.Running? && w.job.pc == ReadSeen(v, row, cands)
    requires StepAfter(row.percent, w.job.pass.canary).Percent? ==>
               MayFollow(Steps(w, v), StepRecord(StepAfter(row.percent, w.job.pass.canary).value, w.job.pass.now))
    ensures JobInv(AfterSeen(bucket, w, v, row, cands))
    ensures var t := AfterSeen(bucket, w, v, row, cands); t.db == w.db && t.steps == w.steps
  {
    hide Cut, GateTripped, StepHealth, Attempted, StepAfter, MayFollow, NoneOffered, MayWiden;
    assert forall t: World :: t.steps == w.steps ==> Steps(t, v) == Steps(w, v);
  }

  lemma SeenKeepsInv(bucket: Buckets, w: World, v: Version, row: Rollout, cands: seq<Candidate>)
    requires Inv(w) && w.job.Running? && w.job.pc == ReadSeen(v, row, cands)
    ensures Inv(AfterSeen(bucket, w, v, row, cands))
  {
    hide Cut, GateTripped, StepHealth, Attempted, StepAfter, MayFollow, AfterSeen, OneRolling, OffersLive, StepsInv,
      StepsMatch, Paced, NoneOffered;
    StepsOf(w, v);
    match StepAfter(row.percent, w.job.pass.canary) {
      case NoStep =>
      case Percent(step) => StepMayFollow(row, Steps(w, v), w.job.pass.canary, w.job.pass.now, step);
    }
    SeenLeads(bucket, w, v, row, cands);
    ReadKeepsInv(w, AfterSeen(bucket, w, v, row, cands));
  }

  lemma FinishKeepsInv(bucket: Buckets, w: World, v: Version, percent: int)
    requires Inv(w) && w.job.Running? && w.job.pc == Finish(v, percent)
    ensures Inv(JobStep(bucket, w))
  {
    hide GateTripped, StepHealth, MayWiden, MayFollow, Paced;
  }

  /** An offer adds a row, for the rolling rollout, and nothing else. */
  lemma OfferWrites(bucket: Buckets, w: World)
    requires JobInv(w) && w.job.Running? && w.job.pc.Offer? && w.job.pc.todo != []
    ensures var t, v := JobStep(bucket, w), w.job.pc.v;
            && t.db.rollouts == w.db.rollouts && t.steps == w.steps && JobInv(t)
            && (forall k :: k in t.db.attempts ==>
                  k.0 == v || (k in w.db.attempts && t.db.attempts[k] == w.db.attempts[k]))
            && IsRolling(w.db, v)
  {
    hide GateTripped, StepHealth, Cut, MayWiden, MayFollow, NoneOffered;
    assert forall t: World, u :: t.steps == w.steps ==> Steps(t, u) == Steps(w, u);
  }

  lemma OfferKeepsInv(bucket: Buckets, w: World)
    requires Inv(w) && w.job.Running? && w.job.pc.Offer? && w.job.pc.todo != []
    ensures Inv(JobStep(bucket, w))
  {
    hide JobStep, JobInv, StepsMatch, Paced;
    OfferWrites(bucket, w);
    var t := JobStep(bucket, w);
    assert forall u :: Steps(t, u) == Steps(w, u);
  }

  lemma SaveKeepsInv(bucket: Buckets, w: World)
    requires Inv(w) && w.job.Running? && w.job.pc.Offer? && w.job.pc.todo == []
    ensures Inv(JobStep(bucket, w))
  {
    hide GateTripped, StepHealth, Cut, MayWiden, MayFollow, Paced;
    var v, before := w.job.pc.v, Steps(w, w.job.pc.v);
    var r := StepRecord(w.job.pc.step, w.job.pass.now);
    assert Paced(before + [r]) by {
      PacedEmpty();
      PacedExtends(before, r);
    }
    var w' := JobStep(bucket, w);
    assert forall u :: u != v ==> Steps(w', u) == Steps(w, u);
    assert StepsMatch(w'.db.rollouts[v], before + [r]);
  }

  lemma PacedEmpty()
    ensures Paced([])
  {
  }

  lemma PacedExtends(s: seq<StepRecord>, r: StepRecord)
    requires Paced(s) && MayFollow(s, r)
    ensures Paced(s + [r])
  {
    assert (s + [r])[..|s + [r]| - 1] == s;
  }

  lemma StepKeepsInv(bucket: Buckets, w: World)
    requires Inv(w) && w.job.Running?
    ensures Inv(JobStep(bucket, w))
  {
    hide GateTripped, StepHealth, Cut, AfterJudge, AfterSeen, AfterOffer, AfterOpen, WithdrawInactive, FailSilent,
      MayWiden, MayFollow, Paced, StepsMatch, CloseRollout;
    match w.job.pc
    case Open => OpenKeepsInv(w);
    case Create(v) => CreateKeepsInv(bucket, w, v);
    case Close(v, status) => CloseKeepsInv(bucket, w, v, status);
    case WithdrawStep(v, row) =>
      WithdrawShrinks(w.db, v, w.env.inactive);
      ShrinkKeepsInv(w, WithdrawInactive(w.db, v, w.env.inactive));
    case FailStep(v, row) =>
      FailShrinks(w.db, v, w.job.pass.now);
      ShrinkKeepsInv(w, FailSilent(w.db, v, w.job.pass.now));
    case Judge(v, row) => JudgeKeepsInv(w, v, row);
    case ReadSeen(v, row, cands) => SeenKeepsInv(bucket, w, v, row, cands);
    case Finish(v, percent) => FinishKeepsInv(bucket, w, v, percent);
    case Offer(_, _, todo, _, _, _) =>
      if todo == [] { SaveKeepsInv(bucket, w); } else { OfferKeepsInv(bucket, w); }
    case _ =>
  }

  lemma ApplyKeepsInv(bucket: Buckets, w: World, e: Event)
    requires Inv(w)
    ensures Inv(Apply(bucket, w, e))
  {
    hide GateTripped, StepHealth, JobStep, MayWiden, MayFollow, Paced, StepsMatch;
    match e
    case JobAccess => if w.job.Running? { StepKeepsInv(bucket, w); }
    case Report(_, _, _, _) => ShrinkKeepsInv(w, Apply(bucket, w, e).db);
    case DeleteServer(_) => ShrinkKeepsInv(w, Apply(bucket, w, e).db);
    case _ =>
  }

  /** Every reachable world is sound, whatever the interleaving. */
  lemma {:induction false} RunKeepsInv(bucket: Buckets, w: World, es: seq<Event>)
    requires Inv(w)
    ensures Inv(Run(bucket, w, es))
    decreases |es|
  {
    hide Inv, Apply;
    if es == [] {
    } else {
      RunKeepsInv(bucket, w, es[..|es| - 1]);
      ApplyKeepsInv(bucket, Run(bucket, w, es[..|es| - 1]), es[|es| - 1]);
    }
  }
}
