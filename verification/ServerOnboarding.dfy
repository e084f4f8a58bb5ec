/** Background onboarding of an import job: one queued worker per credential, each making its
    database accesses one at a time, and the completion check they all run at the end. */
module ServerOnboarding {

  type CredId = int

  const MAX_ATTEMPTS: nat := 3

  datatype Status = Staged | Pending | Running | Finished | Failed

  /** `secret`: any of the four encrypted columns is still set. */
  datatype Cred = Cred(status: Status, attempts: nat, secret: bool)

  datatype JobStatus = Onboarding | Completed

  datatype Store = Store(creds: map<CredId, Cred>, job: JobStatus)

  predicate InFlight(c: Cred) { c.status.Staged? || c.status.Pending? || c.status.Running? }

  ghost predicate Settled(s: Store) { forall c :: c in s.creds ==> !InFlight(s.creds[c]) }

  function Remaining(s: Store): nat { |set c | c in s.creds && InFlight(s.creds[c])| }

  /** Where the worker of a credential stands; `Returned` has left `processOnboard`. `inTry`: the
      completion check after a success is made inside the `try` around the attempt. */
  datatype Pc =
    | Queued
    | Claim
    | Loaded(attempt: nat)
    | Provision(attempt: nat)
    | Reset
    | Finalize(status: Status)
    | Count(inTry: bool)
    | Complete
    | Returned

  /** `sawNone`: the boot-time reconciliation has counted zero. The rest is history. `lost`: the
      credentials left in flight, their last final write failed, which the source swallows, or
      their worker dead for good; `lostWrite`: a final write has failed. `lostCount`: the query of
      a completion check has failed. `died`: a worker has died on the way. `missing`: the last
      worker under way to close a settled job has died for good, or failed to write. */
  datatype World = World(
    store: Store, workers: map<CredId, Pc>, sawNone: bool,
    lost: set<CredId>, lostWrite: bool, lostCount: bool, died: bool, missing: bool)

  /** `flag` is what the outside answers at the step: the credential has expired, the server row
      exists, the provisioning succeeded. `again`: the queue runs the job of a dead worker again. */
  datatype Event =
    | Access(c: CredId, flag: bool)
    | FinalWriteFails(c: CredId)
    | CountFails(c: CredId)
    | CloseFails(c: CredId)
    | Dies(c: CredId, again: bool)
    | Redeliver(c: CredId)
    | ReconcileCount
    | ReconcileWrite

  /** `updateMany({ status: 'onboarding' }, 'completed')`. */
  function CompleteJob(s: Store): Store { s.(job := Completed) }

  function Move(w: World, c: CredId, pc: Pc): World { w.(workers := w.workers[c := pc]) }

  /** One database access, or the provisioning call, of one worker: where it goes on, and its row
      after it. `noneLeft` is the answer of the completion check. */
  function WorkerStep(pc: Pc, cred: Cred, flag: bool, noneLeft: bool): (Pc, Cred) {
    match pc
    case Queued => (if !InFlight(cred) then Count(false) else if flag then Finalize(Failed) else Claim, cred)
    case Claim => (Loaded(cred.attempts + 1), cred.(status := Running, attempts := cred.attempts + 1))
    case Loaded(attempt) => (if flag then Provision(attempt) else Finalize(Failed), cred)
    case Provision(attempt) =>
      (if flag then Finalize(Finished) else if attempt >= MAX_ATTEMPTS then Finalize(Failed) else Reset, cred)
    case Reset => (Queued, cred.(status := Pending))
    case Finalize(status) => (Count(status.Finished?), cred.(status := status, secret := false))
    case Count(_) => (if noneLeft then Complete else Returned, cred)
    case Complete => (Returned, cred)
    case Returned => (Returned, cred)
  }

  function AccessStep(w: World, c: CredId, flag: bool): World
    requires c in w.workers && c in w.store.creds
  {
    var (pc, cred) := WorkerStep(w.workers[c], w.store.creds[c], flag, Remaining(w.store) == 0);
    var s := w.store.(creds := w.store.creds[c := cred]);
    Move(w, c, pc).(store := if w.workers[c].Complete? then CompleteJob(s) else s,
                    lost := if w.workers[c].Finalize? then w.lost - {c} else w.lost)
  }

  /** The failing query of a completion check ends the delivery, unless it is the one inside the
      `try`: there it counts as a failed attempt. */
  function CheckThrows(pc: Pc, cred: Cred): (Pc, Cred)
    requires pc.Count?
  {
    if !pc.inTry then (Returned, cred)
    else if cred.attempts >= MAX_ATTEMPTS then (Finalize(Failed), cred)
    else (Queued, cred.(status := Pending))
  }

  function CountThrows(w: World, c: CredId): World
    requires c in w.workers && c in w.store.creds && w.workers[c].Count?
  {
    var (pc, cred) := CheckThrows(w.workers[c], w.store.creds[c]);
    Move(w, c, pc).(store := w.store.(creds := w.store.creds[c := cred]))
  }

  predicate UnderWay(w: World, c: CredId) { c in w.workers && !w.workers[c].Returned? }

  /** The job is settled but open, and no other worker is under way. */
  predicate LastToClose(w: World, c: CredId) {
    Remaining(w.store) == 0 && w.store.job.Onboarding? && forall k :: k in w.workers && k != c ==> !UnderWay(w, k)
  }

  /** The event writes no row: it sends a worker on, or home, or back to the queue. */
  predicate OnlyMoves(e: Event) { e.FinalWriteFails? || e.CloseFails? || e.Dies? || e.Redeliver? }

  predicate Affects(e: Event, pc: Pc) {
    (e.FinalWriteFails? && pc.Finalize?) || (e.CloseFails? && pc.Complete?)
    || (e.Dies? && !pc.Returned?) || (e.Redeliver? && pc.Returned?)
  }

  function Destination(e: Event, pc: Pc): Pc
    requires Affects(e, pc)
  {
    match e
    case FinalWriteFails(_) => Count(pc.status.Finished?)
    case CloseFails(_) => Returned
    case Dies(_, again) => if again then Queued else Returned
    case _ => Queued
  }

  function MoveStep(w: World, e: Event): World
    requires OnlyMoves(e) && e.c in w.workers && Affects(e, w.workers[e.c])
  {
    var c, pc := e.c, Destination(e, w.workers[e.c]);
    var leaves := e.Dies? && !e.again && c in w.store.creds && InFlight(w.store.creds[c]);
    Move(w, c, pc).(
      lost := if e.FinalWriteFails? || leaves then w.lost + {c} else w.lost,
      lostWrite := w.lostWrite || e.FinalWriteFails?,
      died := w.died || e.Dies?,
      missing := w.missing || (pc.Returned? && LastToClose(w, c)))
  }

  function Apply(w: World, e: Event): World {
    match e
    case Access(c, flag) => if c in w.workers && c in w.store.creds then AccessStep(w, c, flag) else w
    case CountFails(c) =>
      if c in w.workers && c in w.store.creds && w.workers[c].Count?
      then CountThrows(w, c).(lostCount := true) else w
    case ReconcileCount => w.(sawNone := Remaining(w.store) == 0)
    case ReconcileWrite => if w.sawNone then w.(store := CompleteJob(w.store), sawNone := false) else w
    case _ => if e.c in w.workers && Affects(e, w.workers[e.c]) then MoveStep(w, e) else w
  }

  function Run(w: World, es: seq<Event>): World
    decreases |es|
  {
    if es == [] then w else Apply(Run(w, es[..|es| - 1]), es[|es| - 1])
  }

  /** The importer has set the job to onboarding and queued the pending credentials, at least one. */
  predicate Initial(w: World) {
    && w.store.job.Onboarding? && !w.sawNone
    && w.lost == {} && !w.lostWrite && !w.lostCount && !w.died && !w.missing
    && w.workers.Keys <= w.store.creds.Keys && (exists c :: c in w.workers)
    && (forall c :: c in w.workers ==> w.workers[c].Queued? && w.store.creds[c] == Cred(Pending, 0, true))
    && (forall c :: c in w.store.creds && c !in w.workers ==> w.store.creds[c].status.Staged?)
  }

  // ---------------------------------------------------------------- what every step keeps

  /** Holds through failed writes as well: nothing completes the job early. */
  ghost predicate Safe(w: World) {
    && w.workers.Keys <= w.store.creds.Keys
    && (w.store.job.Completed? || w.sawNone ==> Settled(w.store))
    && (forall c :: c in w.workers && w.workers[c].Complete? ==> Settled(w.store))
    && (forall c :: c in w.store.creds && !InFlight(w.store.creds[c]) ==> !w.store.creds[c].secret)
    && (forall c | c in w.workers :: SafeAt(w.workers[c], w.store.creds[c]))
  }

  /** Within its attempts, and terminal once the worker is past the final write. */
  ghost predicate Bounded(pc: Pc, cred: Cred) {
    && cred.attempts <= MAX_ATTEMPTS
    && match pc
       case Queued => InFlight(cred) ==> cred.attempts < MAX_ATTEMPTS
       case Claim => cred.attempts < MAX_ATTEMPTS
       case Loaded(n) => n == cred.attempts
       case Provision(n) => n == cred.attempts
       case Reset => cred.attempts < MAX_ATTEMPTS
       case Finalize(_) => true
       case _ => !InFlight(cred)
  }

  /** Where a worker may stand with its row. */
  ghost predicate SafeAt(pc: Pc, cred: Cred) {
    match pc
    case Claim => InFlight(cred)
    case Loaded(_) => InFlight(cred)
    case Provision(_) => InFlight(cred)
    case Reset => InFlight(cred)
    case Finalize(status) => InFlight(cred) && (status.Finished? || status.Failed?)
    case _ => true
  }

  /** The lost credentials are still in flight, and a row in flight whose worker is past its final
      write is lost. */
  ghost predicate LostInv(w: World)
    requires w.workers.Keys <= w.store.creds.Keys
  {
    && (forall c :: c in w.lost ==> c in w.workers && InFlight(w.store.creds[c]))
    && (forall c :: c in w.workers && Past(w.workers[c]) && InFlight(w.store.creds[c]) ==> c in w.lost)
  }

  predicate Past(pc: Pc) { pc.Count? || pc.Complete? || pc.Returned? }

  /** A settled job that is still open has a worker on its way to close it. */
  ghost predicate Closing(w: World) {
    && (exists c :: c in w.workers)
    && (Settled(w.store) && w.store.job.Onboarding? ==> exists c :: UnderWay(w, c))
  }

  ghost predicate AllBounded(w: World)
    requires w.workers.Keys <= w.store.creds.Keys
  {
    forall c | c in w.workers :: Bounded(w.workers[c], w.store.creds[c])
  }

  ghost predicate Inv(w: World) {
    !w.lostCount ==>
      && w.workers.Keys <= w.store.creds.Keys && Safe(w)
      && LostInv(w)
      && (!w.missing ==> Closing(w))
      && (!w.lostWrite && !w.died ==> AllBounded(w))
  }

  lemma RemainingZero(s: Store)
    ensures Remaining(s) == 0 <==> Settled(s)
  {
    var inFlight := set c | c in s.creds && InFlight(s.creds[c]);
    if Settled(s) {
      assert forall c :: c !in inFlight;
      assert inFlight == {};
    } else {
      var c :| c in s.creds && InFlight(s.creds[c]);
      assert c in inFlight;
    }
  }

  /** An access touches one worker, that worker's row, and the job only to complete it. */
  lemma AccessFrame(w: World, c: CredId, flag: bool)
    requires Safe(w) && c in w.workers
    ensures var w' := AccessStep(w, c, flag);
            && c in w'.workers && c in w'.store.creds
            && w'.workers == w.workers[c := w'.workers[c]]
            && w'.store.creds == w.store.creds[c := w'.store.creds[c]]
            && w'.sawNone == w.sawNone && w'.lostWrite == w.lostWrite && w'.lostCount == w.lostCount
            && w'.died == w.died && w'.missing == w.missing
            && w'.lost == (if w.workers[c].Finalize? then w.lost - {c} else w.lost)
            && w'.store.job == (if w.workers[c].Complete? then Completed else w.store.job)
            && (w'.workers[c].Complete? ==> Remaining(w.store) == 0)
  {
    hide Remaining, Settled, SafeAt;
  }

  lemma AccessKeepsSafe(w: World, c: CredId, flag: bool)
    requires Safe(w) && c in w.workers
    ensures Safe(AccessStep(w, c, flag))
    ensures AccessStep(w, c, flag).lostWrite == w.lostWrite
  {
    hide Remaining, SafeAt, AccessStep;
    RemainingZero(w.store);
    AccessFrame(w, c, flag);
    RowStaysSafe(w, c, flag);
  }

  lemma RowStaysSafe(w: World, c: CredId, flag: bool)
    requires Safe(w) && c in w.workers
    ensures var w' := AccessStep(w, c, flag);
            && c in w'.workers && c in w'.store.creds
            && SafeAt(w'.workers[c], w'.store.creds[c])
            && (!InFlight(w'.store.creds[c]) ==> !w'.store.creds[c].secret)
            && (!InFlight(w.store.creds[c]) ==> !InFlight(w'.store.creds[c]))
  {
    hide Settled;
    assert SafeAt(w.workers[c], w.store.creds[c]);
  }

  /** A worker may always be sent back to the queue or to its check, or home. */
  lemma MovedIsSafe(w: World, c: CredId, pc: Pc, t: World)
    requires Safe(w) && c in w.workers && (pc.Count? || pc.Queued? || pc.Returned?)
    requires t.workers == w.workers[c := pc] && t.store == w.store && t.sawNone == w.sawNone
    ensures Safe(t)
  {
    hide Settled, SafeAt;
    CountIsSafe(w.store.creds[c]);
  }

  lemma ReconciledIsSafe(w: World)
    requires Safe(w)
    ensures Safe(w.(sawNone := Remaining(w.store) == 0))
    ensures w.sawNone ==> Safe(w.(store := CompleteJob(w.store), sawNone := false))
  {
    hide Remaining, SafeAt;
    RemainingZero(w.store);
    CompleteKeepsSettled(w.store);
  }

  /** Where a worker ends up is safe for it, whatever its row. */
  lemma MovesOutline(w: World, e: Event)
    requires OnlyMoves(e)
    ensures var t := Apply(w, e);
            && t.store == w.store && t.sawNone == w.sawNone && t.lostCount == w.lostCount
            && (t.workers != w.workers ==>
                  && e.c in w.workers && Affects(e, w.workers[e.c])
                  && t.workers == w.workers[e.c := Destination(e, w.workers[e.c])])
  {
    hide LastToClose, InFlight, Destination, Affects;
  }

  lemma CheckHolds(w: World, c: CredId)
    requires !Apply(w, CountFails(c)).lostCount
    ensures Apply(w, CountFails(c)) == w
  {
    hide CountThrows;
  }

  lemma ApplyKeepsSafe(w: World, e: Event)
    requires Safe(w) && !Apply(w, e).lostCount
    ensures Safe(Apply(w, e))
  {
    SafeIsClosed(w);
    var t := Apply(w, e);
    if OnlyMoves(e) {
      MovesOutline(w, e);
      hide Apply, Safe;
      if t.workers != w.workers {
        MovedIsSafe(w, e.c, Destination(e, w.workers[e.c]), t);
      } else {
        SameIsSafe(w, t);
      }
    } else {
      hide AccessStep, Safe, CountThrows, InFlight, Remaining, CompleteJob;
      match e {
        case Access(c, flag) => if c in w.workers { AccessKeepsSafe(w, c, flag); }
        case CountFails(c) => CheckHolds(w, c);
        case _ => ReconciledIsSafe(w);
      }
    }
  }

  lemma SameIsSafe(w: World, t: World)
    requires Safe(w) && t.workers == w.workers && t.store == w.store && t.sawNone == w.sawNone
    ensures Safe(t)
  {
    hide Settled, SafeAt;
  }

  lemma CountIsSafe(cred: Cred)
    ensures SafeAt(Count(true), cred) && SafeAt(Count(false), cred) && SafeAt(Queued, cred) && SafeAt(Returned, cred)
  {
  }

  lemma CompleteKeepsSettled(s: Store)
    ensures Settled(CompleteJob(s)) == Settled(s)
  {
  }

  lemma RowStaysBounded(w: World, c: CredId, flag: bool)
    requires Safe(w) && AllBounded(w) && c in w.workers
    ensures var w' := AccessStep(w, c, flag);
            && c in w'.workers && c in w'.store.creds
            && Bounded(w'.workers[c], w'.store.creds[c])
  {
    hide Settled, Remaining;
    assert SafeAt(w.workers[c], w.store.creds[c]);
    assert Bounded(w.workers[c], w.store.creds[c]);
  }

  lemma AccessKeepsBounded(w: World, c: CredId, flag: bool)
    requires Safe(w) && AllBounded(w) && c in w.workers
    ensures AccessStep(w, c, flag).workers.Keys <= AccessStep(w, c, flag).store.creds.Keys
    ensures AllBounded(AccessStep(w, c, flag))
  {
    hide AccessStep, Remaining, Bounded, Settled;
    AccessFrame(w, c, flag);
    RowStaysBounded(w, c, flag);
  }

  /** A row that becomes terminal does so at the final write, from where its worker goes on to the
      check; a row that is terminal sends its worker there. */
  lemma AccessOfRow(w: World, c: CredId, flag: bool)
    requires Safe(w) && c in w.workers
    ensures var w' := AccessStep(w, c, flag);
            && c in w'.workers && c in w'.store.creds
            && (InFlight(w.store.creds[c]) && !InFlight(w'.store.creds[c]) ==>
                  w.workers[c].Finalize? && w'.workers[c].Count?)
            && (InFlight(w.store.creds[c]) && w.workers[c].Finalize? ==> !InFlight(w'.store.creds[c]))
            && (InFlight(w'.store.creds[c]) && Past(w'.workers[c]) ==> Past(w.workers[c]))
            && (InFlight(w'.store.creds[c]) ==> InFlight(w.store.creds[c]))
            && (w'.workers[c].Returned? && !w.workers[c].Returned? ==>
                  w.workers[c].Complete? || Remaining(w.store) > 0)
  {
    hide Settled, Remaining;
    assert SafeAt(w.workers[c], w.store.creds[c]);
  }

  lemma AccessKeepsLost(w: World, c: CredId, flag: bool)
    requires Safe(w) && LostInv(w) && c in w.workers
    ensures AccessStep(w, c, flag).workers.Keys <= AccessStep(w, c, flag).store.creds.Keys
    ensures LostInv(AccessStep(w, c, flag))
  {
    hide AccessStep, Remaining, Settled, SafeAt;
    AccessFrame(w, c, flag);
    AccessOfRow(w, c, flag);
    assert w.workers[c].Finalize? ==> InFlight(w.store.creds[c]) by {
      assert SafeAt(w.workers[c], w.store.creds[c]);
      SafeFinal(w.workers[c], w.store.creds[c]);
    }
  }

  lemma SafeFinal(pc: Pc, cred: Cred)
    requires SafeAt(pc, cred)
    ensures pc.Finalize? ==> InFlight(cred)
  {
  }

  lemma AccessKeepsClosing(w: World, c: CredId, flag: bool)
    requires Safe(w) && Closing(w) && c in w.workers
    ensures Closing(AccessStep(w, c, flag))
  {
    hide AccessStep, Remaining, SafeAt, WorkerStep;
    AccessFrame(w, c, flag);
    AccessOfRow(w, c, flag);
    RemainingZero(w.store);
    var w' := AccessStep(w, c, flag);
    if Settled(w'.store) && w'.store.job.Onboarding? {
      if Settled(w.store) {
        var k :| UnderWay(w, k);
        assert UnderWay(w', k);
      } else {
        var k :| k in w.store.creds && InFlight(w.store.creds[k]);
        assert k in w'.store.creds;
        assert UnderWay(w', c);
      }
    }
  }

  lemma LossIsForEver(w: World, e: Event)
    ensures w.lostCount ==> Apply(w, e).lostCount
    ensures w.lostWrite ==> Apply(w, e).lostWrite
    ensures w.died ==> Apply(w, e).died
    ensures w.missing ==> Apply(w, e).missing
  {
    if e.Access? && e.c in w.workers && e.c in w.store.creds {
      AccessKeepsHistory(w, e.c, e.flag);
    }
    hide Remaining, WorkerStep, AccessStep, CountThrows, LastToClose;
  }

  lemma AccessKeepsHistory(w: World, c: CredId, flag: bool)
    requires c in w.workers && c in w.store.creds
    ensures var w' := AccessStep(w, c, flag);
            && w'.lostCount == w.lostCount && w'.lostWrite == w.lostWrite
            && w'.died == w.died && w'.missing == w.missing
  {
    hide Remaining, WorkerStep;
  }

  lemma MovesKeepLost(w: World, e: Event)
    requires Safe(w) && LostInv(w) && OnlyMoves(e)
    ensures Apply(w, e).workers.Keys <= Apply(w, e).store.creds.Keys && LostInv(Apply(w, e))
  {
    if e.c in w.workers && Affects(e, w.workers[e.c]) {
      SafeFinal(w.workers[e.c], w.store.creds[e.c]);
      hide SafeAt, Settled, InFlight, LastToClose;
    }
  }

  lemma ApplyKeepsLost(w: World, e: Event)
    requires Safe(w) && LostInv(w) && !w.lostCount && !Apply(w, e).lostCount
    ensures Apply(w, e).workers.Keys <= Apply(w, e).store.creds.Keys && LostInv(Apply(w, e))
  {
    if OnlyMoves(e) {
      MovesKeepLost(w, e);
    } else {
      hide AccessStep, Remaining, CountThrows, SafeAt, Settled;
      match e {
        case Access(c, flag) => if c in w.workers { AccessKeepsLost(w, c, flag); }
        case CountFails(c) => CheckHolds(w, c);
        case _ =>
      }
    }
  }

  lemma ApplyKeepsClosing(w: World, e: Event)
    requires Safe(w) && Closing(w) && !w.lostCount
    requires !Apply(w, e).lostCount && !Apply(w, e).missing
    ensures Closing(Apply(w, e))
  {
    hide AccessStep, Remaining, CountThrows, SafeAt, Settled, CompleteJob;
    RemainingZero(w.store);
    if e.Access? {
      if e.c in w.workers {
        AccessKeepsClosing(w, e.c, e.flag);
      }
    } else if e.ReconcileWrite? {
      CompletedIsClosed(w);
    } else if e.CountFails? {
      CheckHolds(w, e.c);
    } else if OnlyMoves(e) {
      OthersKeepClosing(w, e);
    } else {
      assert forall k :: UnderWay(w, k) ==> UnderWay(Apply(w, e), k);
    }
  }

  /** An event that only moves a worker takes away the last one under way only as `missing`. */
  lemma MovesKeepUnderWay(w: World, e: Event, k: CredId)
    requires OnlyMoves(e) && UnderWay(w, k) && !UnderWay(Apply(w, e), k)
    ensures e.c == k && (LastToClose(w, k) ==> Apply(w, e).missing)
    ensures forall l :: l != k && UnderWay(w, l) ==> UnderWay(Apply(w, e), l)
  {
    hide LastToClose, InFlight;
  }

  lemma OthersKeepClosing(w: World, e: Event)
    requires Closing(w) && OnlyMoves(e) && !Apply(w, e).missing
    requires Remaining(w.store) == 0 <==> Settled(w.store)
    ensures Closing(Apply(w, e))
  {
    MovesOutline(w, e);
    var w' := Apply(w, e);
    hide Settled, Remaining, Affects, Destination;
    var c :| c in w.workers;
    assert c in w'.workers;
    if Settled(w.store) && w.store.job.Onboarding? {
      var k :| UnderWay(w, k);
      if !UnderWay(w', k) {
        MovesKeepUnderWay(w, e, k);
        hide Apply;
        var l :| l in w.workers && l != k && UnderWay(w, l);
        assert UnderWay(w', l);
      }
    }
  }

  lemma CompletedIsClosed(w: World)
    requires Closing(w)
    ensures Closing(w.(store := CompleteJob(w.store), sawNone := false))
  {
  }

  lemma ApplyKeepsBounded(w: World, e: Event)
    requires Safe(w) && AllBounded(w) && !w.lostCount
    requires !Apply(w, e).lostCount && !Apply(w, e).lostWrite && !Apply(w, e).died
    ensures Apply(w, e).workers.Keys <= Apply(w, e).store.creds.Keys && AllBounded(Apply(w, e))
  {
    hide AccessStep, Remaining, Settled, Bounded, SafeAt, CountThrows;
    match e
    case Access(c, flag) => if c in w.workers { AccessKeepsBounded(w, c, flag); }
    case Redeliver(c) =>
      if c in w.workers && w.workers[c].Returned? { RequeueIsBounded(w.workers[c], w.store.creds[c]); }
    case CloseFails(c) =>
      if c in w.workers && w.workers[c].Complete? { ClosedIsBounded(w.workers[c], w.store.creds[c]); }
    case _ =>
  }

  lemma ClosedIsBounded(pc: Pc, cred: Cred)
    requires pc.Complete? && Bounded(pc, cred)
    ensures Bounded(Returned, cred)
  {
  }

  lemma ApplyKeepsInv(w: World, e: Event)
    requires Inv(w)
    ensures Inv(Apply(w, e))
  {
    hide Apply, Safe, AllBounded, Closing, LostInv;
    LossIsForEver(w, e);
    if !Apply(w, e).lostCount {
      ApplyKeepsSafe(w, e);
      SafeIsClosed(Apply(w, e));
      ApplyKeepsLost(w, e);
      if !Apply(w, e).missing {
        ApplyKeepsClosing(w, e);
      }
      if !Apply(w, e).lostWrite && !Apply(w, e).died {
        ApplyKeepsBounded(w, e);
      }
    }
  }

  lemma SafeIsClosed(w: World)
    requires Safe(w)
    ensures w.workers.Keys <= w.store.creds.Keys
  {
  }

  lemma RequeueIsBounded(pc: Pc, cred: Cred)
    requires pc.Returned? && Bounded(pc, cred)
    ensures Bounded(Queued, cred)
  {
  }

  lemma {:induction false} RunKeepsInv(w: World, es: seq<Event>)
    requires Initial(w)
    ensures Inv(Run(w, es))
    decreases |es|
  {
    hide Apply, Safe, AllBounded, LostInv, Closing;
    if es == [] {
      InitialInv(w);
    } else {
      RunKeepsInv(w, es[..|es| - 1]);
      ApplyKeepsInv(Run(w, es[..|es| - 1]), es[|es| - 1]);
    }
  }

  lemma InitialInv(w: World)
    requires Initial(w)
    ensures Inv(w)
  {
    var c :| c in w.workers;
    assert c in w.store.creds && InFlight(w.store.creds[c]);
  }

  // ---------------------------------------------------------------- main results

  /** No early completion: in every run in which no completion check fails - final writes may, and
      workers may die - the job is completed only when no credential is staged, pending or running. */
  lemma NoEarlyCompletion(w: World, es: seq<Event>)
    requires Initial(w)
    ensures var t := Run(w, es);
            !t.lostCount && t.store.job.Completed? ==> Settled(t.store)
  {
    hide Run, AllBounded, LostInv, Closing;
    RunKeepsInv(w, es);
  }

  /** And it stays so: no event reopens a completed job, and none but a failing completion check
      touches a terminal row. */
  lemma CompletionIsFinal(w: World, e: Event)
    requires Inv(w) && !w.lostCount
    ensures w.store.job.Completed? ==> Apply(w, e).store.job.Completed?
    ensures !Apply(w, e).lostCount ==>
              forall c :: c in w.store.creds && !InFlight(w.store.creds[c]) ==>
                c in Apply(w, e).store.creds && Apply(w, e).store.creds[c] == w.store.creds[c]
  {
    hide Remaining, Settled, AllBounded, LostInv, Closing;
    if e.Access? && e.c in w.workers {
      assert SafeAt(w.workers[e.c], w.store.creds[e.c]);
    }
  }

  /** The condition on the check is needed: where it fails after a success, the settled store stays
      settled if and only if the check lies outside the `try` or that was the last attempt.
      Otherwise the finished row is pending again, even under a job that is completed. */
  lemma FailedCountReopensIff(w: World, c: CredId)
    requires c in w.workers && c in w.store.creds && w.workers[c].Count? && Settled(w.store)
    ensures var t := Apply(w, CountFails(c));
            && t.store.job == w.store.job
            && (Settled(t.store) <==> !w.workers[c].inTry || w.store.creds[c].attempts >= MAX_ATTEMPTS)
  {
    var t := Apply(w, CountFails(c));
    if w.workers[c].inTry && w.store.creds[c].attempts < MAX_ATTEMPTS {
      assert c in t.store.creds && InFlight(t.store.creds[c]);
    }
  }

  ghost predicate NoSecretLeft(s: Store) {
    forall c :: c in s.creds && !InFlight(s.creds[c]) ==> !s.creds[c].secret
  }

  /** Whatever fails, a terminal row keeps no secret. */
  lemma {:induction false} TerminalRowsKeepNoSecret(w: World, es: seq<Event>)
    requires Initial(w)
    ensures NoSecretLeft(Run(w, es).store)
    decreases |es|
  {
    if es == [] {
    } else {
      TerminalRowsKeepNoSecret(w, es[..|es| - 1]);
      StepKeepsNoSecret(Run(w, es[..|es| - 1]), es[|es| - 1]);
    }
  }

  lemma StepKeepsNoSecret(w: World, e: Event)
    requires NoSecretLeft(w.store)
    ensures NoSecretLeft(Apply(w, e).store)
  {
    hide Remaining, WorkerStep;
    if e.Access? && e.c in w.workers && e.c in w.store.creds {
      WipedWhenTerminal(w.workers[e.c], w.store.creds[e.c], e.flag, Remaining(w.store) == 0);
    }
  }

  lemma WipedWhenTerminal(pc: Pc, cred: Cred, flag: bool, noneLeft: bool)
    requires !InFlight(cred) ==> !cred.secret
    ensures var after := WorkerStep(pc, cred, flag, noneLeft).1; !InFlight(after) ==> !after.secret
  {
  }

  ghost predicate AllReturned(w: World) { forall c :: c in w.workers ==> w.workers[c].Returned? }

  /** Neither lost nor early: in every run in which no completion check fails and the last of them
      does not go missing - final writes may fail, workers may die, for good or to be run again -
      once every worker has returned the job is completed if and only if nothing is in flight. */
  lemma NoLostCompletion(w: World, es: seq<Event>)
    requires Initial(w)
    ensures var t := Run(w, es);
            !t.lostCount && !t.missing && AllReturned(t) ==> (t.store.job.Completed? <==> Settled(t.store))
  {
    hide Run, LostInv, AllBounded, Remaining;
    RunKeepsInv(w, es);
    var t := Run(w, es);
    assert AllReturned(t) ==> !exists k :: UnderWay(t, k);
  }

  /** What makes it go missing: where a settled job is open and a worker is under way to close it,
      the death of `c` for good leaves one under way if and only if there is another. */
  lemma CheckGoesMissingIff(w: World, c: CredId)
    requires Settled(w.store) && w.store.job.Onboarding? && UnderWay(w, c)
    ensures Closing(Apply(w, Dies(c, false))) <==> exists k :: k != c && UnderWay(w, k)
    ensures Apply(w, Dies(c, false)).missing <==> w.missing || !exists k :: k != c && UnderWay(w, k)
  {
    RemainingZero(w.store);
    hide Remaining, Settled;
    var t := Apply(w, Dies(c, false));
    assert forall k :: UnderWay(t, k) <==> k != c && UnderWay(w, k);
  }

  /** Whatever has gone missing: after any run without a failed check, the reconciliation at the
      next boot leaves the job completed if and only if nothing is in flight. */
  lemma BootCloses(w: World, es: seq<Event>)
    requires Initial(w)
    ensures var t := Run(w, es);
            !t.lostCount ==>
              (Apply(Apply(t, ReconcileCount), ReconcileWrite).store.job.Completed? <==> Settled(t.store))
  {
    hide Run, LostInv, AllBounded, Closing;
    RunKeepsInv(w, es);
    RemainingZero(Run(w, es).store);
    hide Remaining, Settled;
  }

  lemma NoneLostIff(lost: set<CredId>, s: Store)
    requires forall c :: c in lost ==> c in s.creds
    requires forall c :: c in s.creds ==> (InFlight(s.creds[c]) <==> c in lost)
    ensures Settled(s) <==> lost == {}
  {
    assert (forall c :: c !in lost) ==> lost == {};
  }

  /** Which jobs are stranded: with every worker returned and every credential queued, the rows in
      flight are exactly those whose last final write failed or whose worker died for good before
      it, and the job stays open if and only if there is one. */
  lemma StrandedIff(w: World, es: seq<Event>)
    requires Initial(w)
    ensures var t := Run(w, es);
            !t.lostCount && !t.missing && AllReturned(t) && t.workers.Keys == t.store.creds.Keys ==>
              && (forall c :: c in t.store.creds ==> (InFlight(t.store.creds[c]) <==> c in t.lost))
              && (t.store.job.Onboarding? <==> t.lost != {})
  {
    hide Run, AllBounded, Remaining, Closing;
    RunKeepsInv(w, es);
    NoLostCompletion(w, es);
    var t := Run(w, es);
    if !t.lostCount && !t.missing && AllReturned(t) && t.workers.Keys == t.store.creds.Keys {
      assert forall c :: c in t.store.creds ==> (InFlight(t.store.creds[c]) <==> c in t.lost);
      NoneLostIff(t.lost, t.store);
    }
  }

  // ---------------------------------------------------------------- attempts

  /** The event sends the worker of `c` back to the queue with its row still in flight and no
      attempt left: it makes one more than the quota. */
  predicate Overruns(w: World, e: Event, c: CredId) {
    && ((e == Dies(c, true) && UnderWay(w, c)) || (e == Redeliver(c) && c in w.workers && w.workers[c].Returned?))
    && c in w.store.creds && InFlight(w.store.creds[c]) && w.store.creds[c].attempts >= MAX_ATTEMPTS
  }

  function OverrunsOf(w: World, es: seq<Event>, c: CredId): nat
    decreases |es|
  {
    if es == [] then 0
    else
      var before := es[..|es| - 1];
      OverrunsOf(w, before, c) + if Overruns(Run(w, before), es[|es| - 1], c) then 1 else 0
  }

  /** Within the quota and `extra` attempts, wherever the worker stands. */
  ghost predicate Affords(pc: Pc, cred: Cred, extra: nat) {
    && cred.attempts <= MAX_ATTEMPTS + extra
    && match pc
       case Queued => InFlight(cred) ==> cred.attempts < MAX_ATTEMPTS + extra
       case Claim => cred.attempts < MAX_ATTEMPTS + extra
       case Loaded(n) => n == cred.attempts
       case Provision(n) => n == cred.attempts
       case Reset => cred.attempts < MAX_ATTEMPTS
       case _ => true
  }

  ghost predicate AffordsAt(w: World, c: CredId, extra: nat) {
    c in w.workers && c in w.store.creds && Affords(w.workers[c], w.store.creds[c], extra)
  }

  lemma AccessAffords(w: World, d: CredId, flag: bool, c: CredId, extra: nat)
    requires AffordsAt(w, c, extra) && d in w.workers && d in w.store.creds
    ensures AffordsAt(AccessStep(w, d, flag), c, extra)
  {
    hide Remaining;
  }

  lemma MovesAfford(w: World, e: Event, c: CredId, extra: nat)
    requires AffordsAt(w, c, extra) && OnlyMoves(e)
    ensures AffordsAt(Apply(w, e), c, extra + if Overruns(w, e, c) then 1 else 0)
  {
    hide LastToClose, Remaining;
  }

  lemma CheckAffords(w: World, d: CredId, c: CredId, extra: nat)
    requires AffordsAt(w, c, extra)
    ensures AffordsAt(Apply(w, CountFails(d)), c, extra)
  {
    if d == c {
      OwnCheckAffords(w, c, extra);
    } else {
      OtherCheckAffords(w, d, c, extra);
    }
    hide *;
  }

  lemma OtherCheckAffords(w: World, d: CredId, c: CredId, extra: nat)
    requires AffordsAt(w, c, extra) && d != c
    ensures AffordsAt(Apply(w, CountFails(d)), c, extra)
  {
    hide Affords, InFlight, Remaining;
  }

  lemma ThrownAffords(pc: Pc, cred: Cred, extra: nat)
    requires Affords(pc, cred, extra) && pc.Count?
    ensures Affords(CheckThrows(pc, cred).0, CheckThrows(pc, cred).1, extra)
  {
  }

  lemma OwnCheckAffords(w: World, c: CredId, extra: nat)
    requires AffordsAt(w, c, extra)
    ensures AffordsAt(Apply(w, CountFails(c)), c, extra)
  {
    if w.workers[c].Count? {
      ThrownAffords(w.workers[c], w.store.creds[c], extra);
    }
    hide Affords, CheckThrows, InFlight, Remaining;
  }

  lemma ApplyAffords(w: World, e: Event, c: CredId, extra: nat)
    requires AffordsAt(w, c, extra)
    ensures AffordsAt(Apply(w, e), c, extra + if Overruns(w, e, c) then 1 else 0)
  {
    if OnlyMoves(e) {
      MovesAfford(w, e, c, extra);
    } else {
      hide Remaining, AccessStep, LastToClose, WorkerStep, CountThrows, Affords;
      match e {
        case Access(d, flag) =>
          if d in w.workers && d in w.store.creds {
            AccessAffords(w, d, flag, c, extra);
          }
        case CountFails(d) => CheckAffords(w, d, c, extra);
        case _ =>
      }
    }
  }

  lemma {:induction false} RunAffords(w: World, es: seq<Event>, c: CredId)
    requires Initial(w) && c in w.workers
    ensures AffordsAt(Run(w, es), c, OverrunsOf(w, es, c))
    decreases |es|
  {
    hide Apply, Overruns, Affords;
    if es == [] {
      FreshAffords();
    } else {
      RunAffords(w, es[..|es| - 1], c);
      ApplyAffords(Run(w, es[..|es| - 1]), es[|es| - 1], c, OverrunsOf(w, es[..|es| - 1], c));
    }
  }

  lemma FreshAffords()
    ensures Affords(Queued, Cred(Pending, 0, true), 0)
  {
  }

  /** In every run, whatever fails and whoever dies, a credential takes at most `MAX_ATTEMPTS`
      attempts and one for each time its worker is run again, dead or redelivered, with the quota
      used up and the row in flight. Without a failed final write or check and without a death
      there is no such time. */
  lemma AttemptsAreBounded(w: World, es: seq<Event>, c: CredId)
    requires Initial(w) && c in w.workers
    ensures var t := Run(w, es);
            && c in t.store.creds
            && t.store.creds[c].attempts <= MAX_ATTEMPTS + OverrunsOf(w, es, c)
            && (!t.lostWrite && !t.lostCount && !t.died ==> t.store.creds[c].attempts <= MAX_ATTEMPTS)
  {
    hide Run, LostInv, Closing;
    RunAffords(w, es, c);
    RunKeepsInv(w, es);
    var t := Run(w, es);
    if !t.lostWrite && !t.lostCount && !t.died {
      assert Bounded(t.workers[c], t.store.creds[c]);
    }
  }

  /** Which deaths overrun the quota: after one the worker of `c` is within it if and only if its
      row is terminal or has an attempt left. */
  lemma DeathStaysBoundedIff(w: World, c: CredId)
    requires Safe(w) && AllBounded(w) && UnderWay(w, c)
    ensures var t := Apply(w, Dies(c, true));
            && t.workers[c] == Queued && t.store == w.store
            && (Bounded(t.workers[c], t.store.creds[c])
                <==> !InFlight(w.store.creds[c]) || w.store.creds[c].attempts < MAX_ATTEMPTS)
            && (Bounded(t.workers[c], t.store.creds[c]) <==> !Overruns(w, Dies(c, true), c))
  {
    assert Bounded(w.workers[c], w.store.creds[c]);
  }

  lemma RunThen(w: World, es: seq<Event>, e: Event)
    ensures Run(w, es + [e]) == Apply(Run(w, es), e)
  {
    assert (es + [e])[..|es + [e]| - 1] == es;
  }

  // ---------------------------------------------------------------- processOnboard

  /** The row of a credential after one uninterrupted delivery of its queue job. */
  function AfterDelivery(cred: Cred, expired: bool, serverFound: bool, provisioned: bool): Cred {
    if !InFlight(cred) then cred
    else if expired then Cred(Failed, cred.attempts, false)
    else
      var n := cred.attempts + 1;
      if !serverFound then Cred(Failed, n, false)
      else if provisioned then Cred(Finished, n, false)
      else if n >= MAX_ATTEMPTS then Cred(Failed, n, false)
      else Cred(Pending, n, cred.secret)
  }

  predicate Throws(cred: Cred, expired: bool, serverFound: bool, provisioned: bool) {
    AfterDelivery(cred, expired, serverFound, provisioned).status.Pending?
    && InFlight(cred) && !expired && serverFound && !provisioned
  }

  /** The worker of `c` alone, by the accesses `es` from `w`, has brought the store to `s` and
      stands at `pc`. */
  ghost predicate Accessed(c: CredId, w: World, es: seq<Event>, s: Store, pc: Pc) {
    && Run(w, es).store == s
    && c in Run(w, es).workers && c in s.creds && Run(w, es).workers[c] == pc
    && forall e :: e in es ==> e.Access? && e.c == c
  }

  /** Away from the completion check, what a step does does not hang on its answer. */
  lemma StepWithoutCheck(w: World, c: CredId, flag: bool)
    requires c in w.workers && c in w.store.creds && !w.workers[c].Count? && !w.workers[c].Complete?
    ensures var (pc', cred') := WorkerStep(w.workers[c], w.store.creds[c], flag, false);
            var w' := Apply(w, Access(c, flag));
            && w'.workers == w.workers[c := pc']
            && w'.store == w.store.(creds := w.store.creds[c := cred'])
  {
    hide Remaining;
  }

  lemma AccessedStep(c: CredId, w: World, es: seq<Event>, s: Store, pc: Pc, flag: bool)
    requires Accessed(c, w, es, s, pc) && !pc.Count? && !pc.Complete?
    ensures c in s.creds
    ensures var (pc', cred') := WorkerStep(pc, s.creds[c], flag, false);
            Accessed(c, w, es + [Access(c, flag)], s.(creds := s.creds[c := cred']), pc')
  {
    hide Run, Apply, WorkerStep, InFlight;
    RunThen(w, es, Access(c, flag));
    StepWithoutCheck(Run(w, es), c, flag);
  }

  // ---------------------------------------------------------------- what the conditions are for

  /** One failed attempt that is not the last, from the queue back to it. */
  lemma FailedAttempt(c: CredId, w: World, es: seq<Event>, s: Store, n: nat) returns (fs: seq<Event>)
    requires Accessed(c, w, es, s, Queued) && s.creds[c] == Cred(Pending, n, true) && n + 1 < MAX_ATTEMPTS
    ensures Accessed(c, w, fs, s.(creds := s.creds[c := Cred(Pending, n + 1, true)]), Queued)
  {
    hide Accessed;
    var t: Store;
    fs, t := AttemptStarts(c, w, es, s, n);
    AccessedStep(c, w, fs, t, Provision(n + 1), false);
    fs := fs + [Access(c, false)];
    assert t.creds[c := t.creds[c]] == t.creds;
    AccessedStep(c, w, fs, t, Reset, true);
    fs := fs + [Access(c, true)];
    assert t.creds[c := Cred(Pending, n + 1, true)] == s.creds[c := Cred(Pending, n + 1, true)];
  }

  /** From the queue into the provisioning call. */
  lemma AttemptStarts(c: CredId, w: World, es: seq<Event>, s: Store, n: nat) returns (fs: seq<Event>, t: Store)
    requires Accessed(c, w, es, s, Queued) && s.creds[c] == Cred(Pending, n, true)
    ensures t == s.(creds := s.creds[c := Cred(Running, n + 1, true)]) && Accessed(c, w, fs, t, Provision(n + 1))
  {
    hide Accessed;
    AccessedStep(c, w, es, s, Queued, false);
    fs := es + [Access(c, false)];
    assert s.creds[c := s.creds[c]] == s.creds;
    AccessedStep(c, w, fs, s, Claim, true);
    fs := fs + [Access(c, true)];
    t := s.(creds := s.creds[c := Cred(Running, n + 1, true)]);
    AccessedStep(c, w, fs, t, Loaded(n + 1), true);
    fs := fs + [Access(c, true)];
    assert t.creds[c := t.creds[c]] == t.creds;
  }

  lemma Begins(c: CredId, w: World)
    requires Initial(w) && c in w.workers
    ensures Accessed(c, w, [], w.store, Queued) && w.store.creds[c] == Cred(Pending, 0, true)
  {
  }

  /** For every import and each of its credentials: a run in which the worker dies on the last
      attempt, is run again, and makes one more. */
  lemma DeathCostsAnAttempt(w: World, c: CredId) returns (es: seq<Event>)
    requires Initial(w) && c in w.workers
    ensures var t := Run(w, es);
            && c in t.store.creds && t.store.creds[c].attempts == MAX_ATTEMPTS + 1
            && !t.lostWrite && !t.lostCount && OverrunsOf(w, es, c) == 1
  {
    hide Accessed, Run, OverrunsOf;
    Begins(c, w);
    es := FailedAttempt(c, w, [], w.store, 0);
    var s := w.store.(creds := w.store.creds[c := Cred(Pending, 1, true)]);
    es := FailedAttempt(c, w, es, s, 1);
    assert s.creds[c := Cred(Pending, 2, true)] == w.store.creds[c := Cred(Pending, 2, true)];
    s := w.store.(creds := w.store.creds[c := Cred(Pending, 2, true)]);
    var fs, t := AttemptStarts(c, w, es, s, 2);
    es := DiesOnLast(c, w, fs, t);
  }

  /** The worker dies in the provisioning call, is run again, and claims its row. */
  lemma DiesAndClaims(t: World, c: CredId)
    requires c in t.workers && c in t.store.creds && t.workers[c] == Provision(MAX_ATTEMPTS)
    requires t.store.creds[c] == Cred(Running, MAX_ATTEMPTS, true)
    ensures var t1 := Apply(t, Dies(c, true));
            var t2 := Apply(t1, Access(c, false));
            var t3 := Apply(t2, Access(c, true));
            && c in t3.store.creds && t3.store.creds[c].attempts == MAX_ATTEMPTS + 1
            && t3.lostWrite == t.lostWrite && t3.lostCount == t.lostCount && Overruns(t, Dies(c, true), c)
  {
    hide Remaining, LastToClose;
  }

  lemma DiesOnLast(c: CredId, w: World, es: seq<Event>, s: Store) returns (fs: seq<Event>)
    requires Initial(w) && c in w.workers
    requires Accessed(c, w, es, s, Provision(MAX_ATTEMPTS)) && s.creds[c] == Cred(Running, MAX_ATTEMPTS, true)
    ensures var t := Run(w, fs);
            && c in t.store.creds && t.store.creds[c].attempts == MAX_ATTEMPTS + 1
            && !t.lostWrite && !t.lostCount && OverrunsOf(w, fs, c) == 1
  {
    NoOverruns(c, w, es);
    DiesAndClaims(Run(w, es), c);
    hide Run, OverrunsOf, Apply;
    var e1, e2, e3 := Dies(c, true), Access(c, false), Access(c, true);
    RunThen(w, es, e1);
    RunThen(w, es + [e1], e2);
    RunThen(w, es + [e1] + [e2], e3);
    fs := es + [e1] + [e2] + [e3];
    OverrunsThen(w, es, e1, c);
    OverrunsThen(w, es + [e1], e2, c);
    OverrunsThen(w, es + [e1] + [e2], e3, c);
  }

  lemma OverrunsThen(w: World, es: seq<Event>, e: Event, c: CredId)
    ensures OverrunsOf(w, es + [e], c) == OverrunsOf(w, es, c) + if Overruns(Run(w, es), e, c) then 1 else 0
  {
    assert (es + [e])[..|es + [e]| - 1] == es;
  }

  /** Accesses alone lose nothing and overrun nothing. */
  lemma {:induction false} NoOverruns(c: CredId, w: World, es: seq<Event>)
    requires Initial(w) && forall e :: e in es ==> e.Access? && e.c == c
    ensures var t := Run(w, es);
            !t.lostWrite && !t.lostCount && !t.died && t.lost == {} && !t.sawNone && OverrunsOf(w, es, c) == 0
    ensures Run(w, es).workers.Keys == w.workers.Keys
    decreases |es|
  {
    if es == [] {
    } else {
      var front := es[..|es| - 1];
      assert es[|es| - 1] in es;
      NoOverruns(c, w, front);
      hide Remaining, WorkerStep;
    }
  }

  /** For every import and each of its credentials: a run in which the failure of its final write is
      swallowed, and the worker returns with its row `running`, its secret in place and the job
      open. */
  lemma LostFinalWriteStrands(w: World, c: CredId) returns (es: seq<Event>)
    requires Initial(w) && c in w.workers
    ensures var t := Run(w, es);
            && c in t.workers && t.workers[c].Returned? && c in t.lost && t.store.job.Onboarding?
            && c in t.store.creds && t.store.creds[c] == Cred(Running, 1, true) && !t.lostCount && !t.died
  {
    hide Accessed;
    Begins(c, w);
    var fs, s := AttemptStarts(c, w, [], w.store, 0);
    AccessedStep(c, w, fs, s, Provision(1), true);
    assert s.creds[c := s.creds[c]] == s.creds;
    es := WriteLost(c, w, fs + [Access(c, true)], s);
  }

  lemma WriteFailsAndReturns(t: World, c: CredId)
    requires c in t.workers && c in t.store.creds && t.workers[c] == Finalize(Finished) && InFlight(t.store.creds[c])
    ensures var u := Apply(Apply(t, FinalWriteFails(c)), Access(c, false));
            && c in u.workers && u.workers[c].Returned? && c in u.lost && u.store == t.store
            && u.lostCount == t.lostCount && u.died == t.died
  {
    RemainingZero(t.store);
    hide Remaining;
    assert t.store.creds[c := t.store.creds[c]] == t.store.creds;
  }

  lemma WriteLost(c: CredId, w: World, es: seq<Event>, s: Store) returns (fs: seq<Event>)
    requires Initial(w) && c in w.workers && s.job.Onboarding?
    requires Accessed(c, w, es, s, Finalize(Finished)) && s.creds[c] == Cred(Running, 1, true)
    ensures var t := Run(w, fs);
            && c in t.workers && t.workers[c].Returned? && c in t.lost && t.store == s && !t.lostCount && !t.died
  {
    NoOverruns(c, w, es);
    WriteFailsAndReturns(Run(w, es), c);
    hide Run, OverrunsOf, Apply;
    RunThen(w, es, FinalWriteFails(c));
    RunThen(w, es + [FinalWriteFails(c)], Access(c, false));
    fs := es + [FinalWriteFails(c)] + [Access(c, false)];
  }

  /** For every import with one credential: a run in which a boot completes the job between the
      final write and the check, the check then fails, and the finished row is pending again under
      the completed job. */
  lemma FailedCountReopens(w: World, c: CredId) returns (es: seq<Event>)
    requires Initial(w) && c in w.workers && w.store.creds.Keys == {c}
    ensures var t := Run(w, es);
            t.store.job.Completed? && c in t.store.creds && t.store.creds[c] == Cred(Pending, 1, false)
  {
    hide Accessed;
    Begins(c, w);
    var fs, s := AttemptStarts(c, w, [], w.store, 0);
    AccessedStep(c, w, fs, s, Provision(1), true);
    assert s.creds[c := s.creds[c]] == s.creds;
    AccessedStep(c, w, fs + [Access(c, true)], s, Finalize(Finished), true);
    var u := s.(creds := s.creds[c := Cred(Finished, 1, false)]);
    es := CheckFailsUnderBoot(c, w, fs + [Access(c, true)] + [Access(c, true)], u);
  }

  lemma CheckFailsUnderBoot(c: CredId, w: World, es: seq<Event>, s: Store) returns (fs: seq<Event>)
    requires Initial(w) && c in w.workers && s.creds.Keys == {c}
    requires Accessed(c, w, es, s, Count(true)) && s.creds[c] == Cred(Finished, 1, false)
    ensures var t := Run(w, fs);
            t.store.job.Completed? && c in t.store.creds && t.store.creds[c] == Cred(Pending, 1, false)
  {
    var t0 := Run(w, es);
    hide Run, LastToClose;
    assert Settled(s);
    RemainingZero(s);
    hide Remaining;
    RunThen(w, es, ReconcileCount);
    RunThen(w, es + [ReconcileCount], ReconcileWrite);
    RunThen(w, es + [ReconcileCount] + [ReconcileWrite], CountFails(c));
    fs := es + [ReconcileCount] + [ReconcileWrite] + [CountFails(c)];
  }

  // ---------------------------------------------------------------- what a final status says

  /** What the outside has answered about a credential: it had expired, there was no server for it,
      or the provisioning came to an end. */
  datatype Answer = Expired | NoServer | Tried(ok: bool)

  function AnswerAt(pc: Pc, cred: Cred, flag: bool): seq<Answer> {
    match pc
    case Queued => if InFlight(cred) && flag then [Expired] else []
    case Loaded(_) => if flag then [] else [NoServer]
    case Provision(_) => [Tried(flag)]
    case _ => []
  }

  function AnswerOf(w: World, e: Event, c: CredId): seq<Answer> {
    if e.Access? && e.c == c && c in w.workers && c in w.store.creds
    then AnswerAt(w.workers[c], w.store.creds[c], e.flag) else []
  }

  function Answers(w: World, es: seq<Event>, c: CredId): seq<Answer>
    decreases |es|
  {
    if es == [] then []
    else Answers(w, es[..|es| - 1], c) + AnswerOf(Run(w, es[..|es| - 1]), es[|es| - 1], c)
  }

  ghost predicate AllFailed(rs: seq<Answer>) { forall r :: r in rs ==> r == Tried(false) }

  /** Failed attempts, and one that succeeded. */
  ghost predicate Succeeds(rs: seq<Answer>) {
    rs != [] && |rs| <= 3 && AllFailed(rs[..|rs| - 1]) && rs[|rs| - 1] == Tried(true)
  }

  /** Three failed attempts, or fewer and then no use in another. */
  ghost predicate Fails(rs: seq<Answer>) {
    || (|rs| == 3 && AllFailed(rs))
    || (rs != [] && |rs| <= 3 && AllFailed(rs[..|rs| - 1]) && (rs[|rs| - 1].Expired? || rs[|rs| - 1].NoServer?))
  }

  ghost predicate Tells(pc: Pc, cred: Cred, rs: seq<Answer>) {
    match pc
    case Queued => AllFailed(rs) && |rs| == cred.attempts < MAX_ATTEMPTS && InFlight(cred)
    case Claim => AllFailed(rs) && |rs| == cred.attempts < MAX_ATTEMPTS && InFlight(cred)
    case Loaded(n) => AllFailed(rs) && |rs| + 1 == n == cred.attempts <= MAX_ATTEMPTS && InFlight(cred)
    case Provision(n) => AllFailed(rs) && |rs| + 1 == n == cred.attempts <= MAX_ATTEMPTS && InFlight(cred)
    case Reset => AllFailed(rs) && |rs| == cred.attempts < MAX_ATTEMPTS && InFlight(cred)
    case Finalize(status) =>
      InFlight(cred) && ((status.Finished? && Succeeds(rs)) || (status.Failed? && Fails(rs)))
    case _ => (cred.status.Finished? && Succeeds(rs)) || (cred.status.Failed? && Fails(rs))
  }

  /** No write, check or delivery of this credential fails, and no worker of it dies. */
  predicate Untroubled(e: Event, c: CredId) {
    e.Access? || e.ReconcileCount? || e.ReconcileWrite? || e.c != c
  }

  lemma OneMoreAnswer(rs: seq<Answer>, r: Answer)
    ensures AllFailed(rs) && r == Tried(false) ==> AllFailed(rs + [r])
    ensures AllFailed(rs) && |rs| < 3 && r == Tried(true) ==> Succeeds(rs + [r])
    ensures AllFailed(rs) && |rs| < 3 && (r.Expired? || r.NoServer?) ==> Fails(rs + [r])
  {
    assert (rs + [r])[..|rs|] == rs;
  }

  lemma StepTells(pc: Pc, cred: Cred, flag: bool, noneLeft: bool, rs: seq<Answer>)
    requires Tells(pc, cred, rs)
    ensures var (next, row) := WorkerStep(pc, cred, flag, noneLeft); Tells(next, row, rs + AnswerAt(pc, cred, flag))
  {
    hide AllFailed, Succeeds;
    assert rs + [] == rs;
    match pc {
      case Queued => OneMoreAnswer(rs, Expired);
      case Loaded(_) => OneMoreAnswer(rs, NoServer);
      case Provision(_) => OneMoreAnswer(rs, Tried(flag));
      case _ =>
    }
  }

  /** Another worker's events leave a worker and its row alone. */
  lemma OthersLeaveAlone(w: World, e: Event, c: CredId)
    requires c in w.workers && c in w.store.creds
    requires e.ReconcileCount? || e.ReconcileWrite? || e.c != c
    ensures var t := Apply(w, e);
            c in t.workers && c in t.store.creds && t.workers[c] == w.workers[c] && t.store.creds[c] == w.store.creds[c]
  {
    if OnlyMoves(e) {
      MovesOutline(w, e);
      hide Apply, Affects, Destination;
    } else if e.Access? {
      AccessLeavesAlone(w, e.c, e.flag, c);
    } else if e.CountFails? {
      CheckLeavesAlone(w, e.c, c);
    }
  }

  lemma AccessLeavesAlone(w: World, d: CredId, flag: bool, c: CredId)
    requires c in w.workers && c in w.store.creds && d != c
    ensures var t := Apply(w, Access(d, flag));
            c in t.workers && c in t.store.creds && t.workers[c] == w.workers[c] && t.store.creds[c] == w.store.creds[c]
  {
    hide Remaining, WorkerStep;
  }

  lemma CheckLeavesAlone(w: World, d: CredId, c: CredId)
    requires c in w.workers && c in w.store.creds && d != c
    ensures var t := Apply(w, CountFails(d));
            c in t.workers && c in t.store.creds && t.workers[c] == w.workers[c] && t.store.creds[c] == w.store.creds[c]
  {
    hide CheckThrows;
  }

  lemma OwnAccess(w: World, c: CredId, flag: bool)
    requires c in w.workers && c in w.store.creds
    ensures var t := Apply(w, Access(c, flag));
            && c in t.workers && c in t.store.creds
            && (t.workers[c], t.store.creds[c])
               == WorkerStep(w.workers[c], w.store.creds[c], flag, Remaining(w.store) == 0)
  {
    hide Remaining, WorkerStep;
  }

  lemma ApplyTells(w: World, e: Event, c: CredId, rs: seq<Answer>)
    requires c in w.workers && c in w.store.creds && Untroubled(e, c)
    requires Tells(w.workers[c], w.store.creds[c], rs)
    ensures var t := Apply(w, e);
            c in t.workers && c in t.store.creds
            && Tells(t.workers[c], t.store.creds[c], rs + AnswerOf(w, e, c))
  {
    hide Apply, Tells, WorkerStep, Remaining;
    if e.Access? && e.c == c {
      OwnAccess(w, c, e.flag);
      StepTells(w.workers[c], w.store.creds[c], e.flag, Remaining(w.store) == 0, rs);
    } else {
      OthersLeaveAlone(w, e, c);
      assert rs + AnswerOf(w, e, c) == rs;
    }
  }

  lemma TellsOutcome(pc: Pc, cred: Cred, rs: seq<Answer>)
    requires Tells(pc, cred, rs)
    ensures if Past(pc) then (cred.status.Finished? && Succeeds(rs)) || (cred.status.Failed? && Fails(rs))
            else InFlight(cred)
  {
    hide Succeeds, Fails, AllFailed;
  }

  /** What a row says is what happened: in every interleaving with other workers, with their
      failures and with boots, a credential none of whose own writes and checks fails is in flight
      until it is decided; it ends finished exactly if its last attempt, one of three at most,
      succeeded, and failed exactly if three attempts did not, or it had expired, or there was no
      server. */
  lemma {:induction false} OutcomeIsLastAnswer(w: World, es: seq<Event>, c: CredId)
    requires Initial(w) && c in w.workers && forall e :: e in es ==> Untroubled(e, c)
    ensures var t, rs := Run(w, es), Answers(w, es, c);
            && c in t.workers && c in t.store.creds && Tells(t.workers[c], t.store.creds[c], rs)
            && (if Past(t.workers[c])
                then (t.store.creds[c].status.Finished? && Succeeds(rs))
                     || (t.store.creds[c].status.Failed? && Fails(rs))
                else InFlight(t.store.creds[c]))
    decreases |es|
  {
    if es == [] {
    } else {
      var n := |es| - 1;
      var t, e, rs := Run(w, es[..n]), es[n], Answers(w, es[..n], c);
      OutcomeIsLastAnswer(w, es[..n], c);
      assert e in es;
      hide Apply, Tells, AnswerOf, Initial;
      ApplyTells(t, e, c, rs);
      TellsOutcome(Run(w, es).workers[c], Run(w, es).store.creds[c], Answers(w, es, c));
    }
  }

  ghost predicate Earned(pc: Pc, cred: Cred, rs: seq<Answer>) {
    pc == Finalize(Finished) || cred.status.Finished? ==> Tried(true) in rs
  }

  lemma StepEarned(w: World, e: Event, c: CredId, rs: seq<Answer>)
    requires c in w.workers && c in w.store.creds && Earned(w.workers[c], w.store.creds[c], rs)
    ensures var t := Apply(w, e);
            c in t.workers && c in t.store.creds && Earned(t.workers[c], t.store.creds[c], rs + AnswerOf(w, e, c))
  {
    hide Remaining, LastToClose;
    if e.ReconcileCount? || e.ReconcileWrite? || e.c != c {
      OthersLeaveAlone(w, e, c);
    } else if e.Access? {
      OwnAccess(w, c, e.flag);
    } else if OnlyMoves(e) {
      MovesOutline(w, e);
    }
  }

  /** And in every run whatsoever, with any writes, checks and workers lost, a row is finished only
      if the provisioning of its server has succeeded. */
  lemma {:induction false} FinishedIsEarned(w: World, es: seq<Event>, c: CredId)
    requires Initial(w) && c in w.workers
    ensures var t := Run(w, es);
            && c in t.workers && c in t.store.creds && Earned(t.workers[c], t.store.creds[c], Answers(w, es, c))
            && (t.store.creds[c].status.Finished? ==> Tried(true) in Answers(w, es, c))
    decreases |es|
  {
    if es == [] {
    } else {
      var n := |es| - 1;
      FinishedIsEarned(w, es[..n], c);
      hide Apply, AnswerOf, Initial;
      StepEarned(Run(w, es[..n]), es[n], c, Answers(w, es[..n], c));
    }
  }

  // ---------------------------------------------------------------- the job's function

  class OnboardingStore {
    var creds: map<CredId, Cred>
    var job: JobStatus

    ghost function Contents(): Store
      reads this
    {
      Store(creds, job)
    }

    constructor (creds: map<CredId, Cred>)
      ensures Contents() == Store(creds, Onboarding)
    {
      this.creds, job := creds, Onboarding;
    }

    /** `es` grows by the accesses made here; `w` is where they started from. */
    method MaybeCompleteJob(ghost c: CredId, ghost inTry: bool, ghost w: World, ghost es: seq<Event>)
      returns (ghost fs: seq<Event>)
      requires Accessed(c, w, es, Contents(), Count(inTry))
      modifies this`job
      ensures job == if Settled(Contents()) then Completed else old(job)
      ensures Accessed(c, w, fs, Contents(), Returned)
    {
      RemainingZero(Contents());
      fs := es + [Access(c, false)];
      RunThen(w, es, Access(c, false));
      if Remaining(Store(creds, job)) == 0 {
        job := Completed;
        RunThen(w, fs, Access(c, false));
        fs := fs + [Access(c, false)];
      }
    }

    method FinalizeCredential(c: CredId, status: Status, ghost w: World, ghost es: seq<Event>)
      returns (ghost fs: seq<Event>)
      requires c in creds && (status.Finished? || status.Failed?)
      requires Accessed(c, w, es, Contents(), Finalize(status))
      modifies this
      ensures creds == old(creds)[c := old(creds)[c].(status := status, secret := false)]
      ensures job == if Settled(Contents()) then Completed else old(job)
      ensures Accessed(c, w, fs, Contents(), Returned)
    {
      creds := creds[c := creds[c].(status := status, secret := false)];
      RunThen(w, es, Access(c, false));
      fs := MaybeCompleteJob(c, status.Finished?, w, es + [Access(c, false)]);
    }

    /** One delivery of the queue job for `c`: a failed attempt is retried by throwing until the
        last one, and whenever the delivery does not throw, the job is closed if nothing is left
        in flight. What it does is a run `es` of that worker alone in the machine. */
    method ProcessOnboard(c: CredId, expired: bool, serverFound: bool, provisioned: bool, ghost w: World)
      returns (throws: bool, ghost es: seq<Event>)
      requires c in creds && Accessed(c, w, [], Contents(), Queued)
      modifies this
      ensures creds == old(creds)[c := AfterDelivery(old(creds)[c], expired, serverFound, provisioned)]
      ensures throws == Throws(old(creds)[c], expired, serverFound, provisioned)
      ensures job == if !throws && Settled(Contents()) then Completed else old(job)
      ensures Accessed(c, w, es, Contents(), if throws then Queued else Returned)
    {
      hide Remaining, Settled, Accessed;
      var cred := creds[c];
      AccessedStep(c, w, [], Contents(), Queued, expired);
      es := [] + [Access(c, expired)];
      assert creds[c := cred] == creds;
      if !InFlight(cred) {
        es := MaybeCompleteJob(c, false, w, es);
        return false, es;
      }
      if expired {
        es := FinalizeCredential(c, Failed, w, es);
        return false, es;
      }
      creds := creds[c := cred.(status := Running, attempts := cred.attempts + 1)];
      var attempt := creds[c].attempts;
      AccessedStep(c, w, es, Store(old(creds), job), Claim, true);
      es := es + [Access(c, true)];
      assert creds[c := creds[c]] == creds;
      AccessedStep(c, w, es, Contents(), Loaded(attempt), serverFound);
      es := es + [Access(c, serverFound)];
      if !serverFound {
        es := FinalizeCredential(c, Failed, w, es);
        return false, es;
      }
      AccessedStep(c, w, es, Contents(), Provision(attempt), provisioned);
      es := es + [Access(c, provisioned)];
      if provisioned {
        es := FinalizeCredential(c, Finished, w, es);
        return false, es;
      }
      if attempt >= MAX_ATTEMPTS {
        es := FinalizeCredential(c, Failed, w, es);
        return false, es;
      }
      AccessedStep(c, w, es, Contents(), Reset, true);
      creds := creds[c := creds[c].(status := Pending)];
      es := es + [Access(c, true)];
      return true, es;
    }
  }
}
