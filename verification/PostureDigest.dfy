/** The digest watermark of one alert rule, advanced by several application instances that each
    list the rule, take the lock, read the rule again, mail, and only then record the window. */
module PostureDigest {
  import opened Wrappers
  import opened DigestSchedule
  import Lock = RedisLock

  type Pid = Lock.Pid

  datatype Rule = Rule(active: bool, digest: bool, cadence: Cadence, lastDigestAt: Option<int>, createdAt: int)

  function Anchor(r: Rule): int { if r.lastDigestAt.Some? then r.lastDigestAt.value else r.createdAt }

  function DueWindow(r: Rule, now: int): Window {
    if r.active && r.digest then DigestDue(r.cadence, Anchor(r), now) else NotDue
  }

  /** How far an instance has got with the rule; `now` is when its pass began, `anchor` the
      watermark it read under the lock. */
  datatype Work =
    | Idle
    | Listed(now: int)
    | Entered(now: int)
    | Sending(from: int, to: int, anchor: int)
    | Recording(from: int, to: int, anchor: int)

  /** A window that was mailed and recorded, with the watermark it started from. */
  datatype Sent = Sent(from: int, to: int, anchor: int)

  /** `log` and `rearmed` are history; `rearmed` says that an edit has switched the rule into
      digest mode and so restarted its watermark. */
  datatype World = World(lock: Lock.State, work: map<Pid, Work>, rule: Rule, log: seq<Sent>, rearmed: bool)

  datatype Event =
    | Begin(p: Pid, now: int)
    | TryEnter(p: Pid)
    | LockError(p: Pid)
    | ReRead(p: Pid)
    | SendReturns(p: Pid)
    | SendThrows(p: Pid)
    | Record(p: Pid)
    | RecordThrows(p: Pid)
    | DelLands(p: Pid)
    | DelFails(p: Pid)
    | Crash(p: Pid)
    | Tick(elapsed: nat)
    | Edit(active: bool, digest: bool, cadence: Cadence)

  function WorkOf(w: World, p: Pid): Work { if p in w.work then w.work[p] else Idle }

  function Put(w: World, p: Pid, k: Work): World { w.(work := w.work[p := k]) }

  function Leave(w: World, p: Pid): World {
    Put(w, p, Idle).(lock := Lock.Apply(w.lock, Lock.Return(p)))
  }

  function Apply(w: World, e: Event): World {
    match e
    case Begin(p, now) =>
      if WorkOf(w, p).Idle? && Lock.PhaseOf(w.lock, p).Out? && now <= w.lock.now && DueWindow(w.rule, now).Due?
      then Put(w, p, Listed(now)) else w
    case TryEnter(p) =>
      if WorkOf(w, p).Listed? then
        var lock := Lock.Apply(w.lock, Lock.TryLock(p));
        if Lock.PhaseOf(lock, p).Inside? then Put(w, p, Entered(WorkOf(w, p).now)).(lock := lock) else Put(w, p, Idle)
      else w
    case LockError(p) => if WorkOf(w, p).Listed? then Put(w, p, Idle) else w
    case ReRead(p) =>
      if WorkOf(w, p).Entered? then
        (match DueWindow(w.rule, WorkOf(w, p).now)
         case NotDue => Leave(w, p)
         case Due(from, to) => Put(w, p, Sending(from, to, Anchor(w.rule))))
      else w
    case SendReturns(p) =>
      (match WorkOf(w, p) case Sending(f, t, a) => Put(w, p, Recording(f, t, a)) case _ => w)
    case SendThrows(p) => if WorkOf(w, p).Sending? then Leave(w, p) else w
    case Record(p) =>
      (match WorkOf(w, p)
       case Recording(f, t, a) =>
         Leave(w, p).(rule := w.rule.(lastDigestAt := Some(t)), log := w.log + [Sent(f, t, a)])
       case _ => w)
    case RecordThrows(p) => if WorkOf(w, p).Recording? then Leave(w, p) else w
    case DelLands(p) => w.(lock := Lock.Apply(w.lock, Lock.DelLands(p)))
    case DelFails(p) => w.(lock := Lock.Apply(w.lock, Lock.DelFails(p)))
    case Crash(p) => Put(w, p, Idle).(lock := Lock.Apply(w.lock, Lock.Crash(p)))
    case Tick(elapsed) => w.(lock := Lock.Apply(w.lock, Lock.Tick(elapsed)))
    case Edit(active, digest, cadence) =>
      var arm := digest && !w.rule.digest;
      w.(rule := Rule(active, digest, cadence, if arm then Some(w.lock.now) else w.rule.lastDigestAt, w.rule.createdAt),
         rearmed := w.rearmed || arm)
  }

  function Run(w: World, es: seq<Event>): World
    decreases |es|
  {
    if es == [] then w else Apply(Run(w, es[..|es| - 1]), es[|es| - 1])
  }

  predicate Initial(w: World) {
    && Lock.Initial(w.lock) && !w.lock.failOpen
    && w.work == map[] && w.log == [] && !w.rearmed
    && w.rule.createdAt <= w.lock.now && Anchor(w.rule) <= w.lock.now
  }

  // ---------------------------------------------------------------- what every step keeps

  predicate Inner(k: Work) { k.Entered? || k.Sending? || k.Recording? }

  predicate HasWindow(k: Work) { k.Sending? || k.Recording? }

  /** A window starts at its anchor, or 31 days back when the anchor is older than that. */
  predicate SoundWindow(from: int, to: int, anchor: int) {
    anchor <= from < to && (from == anchor <==> to - anchor <= MAX_WINDOW_MS)
  }

  ghost predicate Ordered(log: seq<Sent>) {
    && (forall i :: 0 <= i < |log| ==> SoundWindow(log[i].from, log[i].to, log[i].anchor))
    && (forall i, j :: 0 <= i < j < |log| ==> log[i].to <= log[j].from)
  }

  ghost predicate Chained(log: seq<Sent>) {
    forall i :: 0 < i < |log| ==> log[i].anchor == log[i - 1].to
  }

  /** What ties an instance's work to the clock and to the lock. */
  ghost predicate WorkAt(w: World, p: Pid)
    requires p in w.work
  {
    && (w.work[p].Listed? || w.work[p].Entered? ==> w.work[p].now <= w.lock.now)
    && (HasWindow(w.work[p]) ==>
          && w.work[p].to <= w.lock.now
          && SoundWindow(w.work[p].from, w.work[p].to, w.work[p].anchor))
    && (w.work[p].Listed? ==> Lock.PhaseOf(w.lock, p).Out?)
    && (Inner(w.work[p]) ==> Lock.PhaseOf(w.lock, p).Inside?)
  }

  ghost predicate WorkInv(w: World) {
    && w.rule.createdAt <= w.lock.now && Anchor(w.rule) <= w.lock.now
    && (forall p | p in w.work :: WorkAt(w, p))
  }

  /** Nothing recorded reaches past the watermark or past the start of a window in progress; as
      long as nothing has re-armed the rule, the watermark is where the last window ended. */
  ghost predicate LogInv(w: World) {
    && Ordered(w.log)
    && (w.log != [] ==>
          && w.log[|w.log| - 1].to <= Anchor(w.rule)
          && (forall p | p in w.work :: HasWindow(w.work[p]) ==> w.log[|w.log| - 1].to <= w.work[p].from))
    && (!w.rearmed ==>
          && Chained(w.log)
          && (w.log != [] ==> w.log[|w.log| - 1].to == Anchor(w.rule))
          && (forall p | p in w.work :: HasWindow(w.work[p]) ==> w.work[p].anchor == Anchor(w.rule)))
  }

  ghost predicate Inv(w: World) {
    && Lock.Inv(w.lock) && !w.lock.failOpen
    && WorkInv(w)
    && (!w.lock.overran ==> LogInv(w))
  }

  /** The lock event behind an event of the protocol. */
  function LockStep(w: World, e: Event): Lock.State {
    match e
    case TryEnter(p) => if WorkOf(w, p).Listed? then Lock.Apply(w.lock, Lock.TryLock(p)) else w.lock
    case ReRead(p) =>
      if WorkOf(w, p).Entered? && DueWindow(w.rule, WorkOf(w, p).now).NotDue?
      then Lock.Apply(w.lock, Lock.Return(p)) else w.lock
    case SendThrows(p) => if WorkOf(w, p).Sending? then Lock.Apply(w.lock, Lock.Return(p)) else w.lock
    case Record(p) => if WorkOf(w, p).Recording? then Lock.Apply(w.lock, Lock.Return(p)) else w.lock
    case RecordThrows(p) => if WorkOf(w, p).Recording? then Lock.Apply(w.lock, Lock.Return(p)) else w.lock
    case DelLands(p) => Lock.Apply(w.lock, Lock.DelLands(p))
    case DelFails(p) => Lock.Apply(w.lock, Lock.DelFails(p))
    case Crash(p) => Lock.Apply(w.lock, Lock.Crash(p))
    case Tick(elapsed) => Lock.Apply(w.lock, Lock.Tick(elapsed))
    case _ => w.lock
  }

  lemma LockFollows(w: World, e: Event)
    requires Lock.Inv(w.lock) && !w.lock.failOpen && WorkInv(w)
    ensures Apply(w, e).lock == LockStep(w, e)
    ensures Lock.Inv(Apply(w, e).lock) && !Apply(w, e).lock.failOpen
    ensures w.lock.overran ==> Apply(w, e).lock.overran
  {
    hide DigestDue, Lock.Inv;
    match e
    case TryEnter(p) => Lock.ApplyKeepsInv(w.lock, Lock.TryLock(p));
    case ReRead(p) => Lock.ApplyKeepsInv(w.lock, Lock.Return(p));
    case SendThrows(p) => Lock.ApplyKeepsInv(w.lock, Lock.Return(p));
    case Record(p) => Lock.ApplyKeepsInv(w.lock, Lock.Return(p));
    case RecordThrows(p) => Lock.ApplyKeepsInv(w.lock, Lock.Return(p));
    case DelLands(p) => Lock.ApplyKeepsInv(w.lock, Lock.DelLands(p));
    case DelFails(p) => Lock.ApplyKeepsInv(w.lock, Lock.DelFails(p));
    case Crash(p) => Lock.ApplyKeepsInv(w.lock, Lock.Crash(p));
    case Tick(elapsed) => Lock.ApplyKeepsInv(w.lock, Lock.Tick(elapsed));
    case _ =>
  }

  lemma DueIsSound(r: Rule, now: int)
    ensures var d := DueWindow(r, now);
            d.Due? ==> d.to == now && SoundWindow(d.from, d.to, Anchor(r))
  {
    DueMeansSlotPassed(r.cadence, Anchor(r), now);
  }

  lemma StepKeepsWorkAt(w: World, e: Event, q: Pid)
    requires WorkInv(w) && q in Apply(w, e).work
    ensures WorkAt(Apply(w, e), q)
  {
    hide DigestDue, DueWindow, SoundWindow;
    if e.ReRead? {
      ReReadKeepsWorkAt(w, e.p, q);
    } else {
      assert q in w.work ==> WorkAt(w, q);
    }
  }

  lemma ReReadKeepsWorkAt(w: World, p: Pid, q: Pid)
    requires WorkInv(w) && q in Apply(w, ReRead(p)).work
    ensures WorkAt(Apply(w, ReRead(p)), q)
  {
    hide DigestDue, DueWindow, SoundWindow;
    assert q in w.work ==> WorkAt(w, q);
    if WorkOf(w, p).Entered? {
      DueIsSound(w.rule, WorkOf(w, p).now);
    }
  }

  lemma StepKeepsWork(w: World, e: Event)
    requires WorkInv(w)
    ensures WorkInv(Apply(w, e))
  {
    forall q | q in Apply(w, e).work ensures WorkAt(Apply(w, e), q) {
      StepKeepsWorkAt(w, e, q);
    }
    hide DigestDue, DueWindow, SoundWindow, WorkAt;
  }

  /** Inside a held lock nobody else has a window in progress. */
  lemma Alone(w: World, p: Pid, q: Pid)
    requires Lock.Inv(w.lock) && !w.lock.failOpen && WorkInv(w) && !w.lock.overran
    requires p in w.work && q in w.work && Inner(w.work[p]) && Inner(w.work[q])
    ensures p == q
  {
    assert WorkAt(w, p) && WorkAt(w, q);
  }

  /** A longer log, its last window not before the end of the one before. */
  lemma LogGrows(log: seq<Sent>, last: Sent)
    requires Ordered(log) && SoundWindow(last.from, last.to, last.anchor)
    requires log != [] ==> log[|log| - 1].to <= last.from
    ensures Ordered(log + [last])
    ensures Chained(log) && (log != [] ==> last.anchor == log[|log| - 1].to) ==> Chained(log + [last])
  {
    hide SoundWindow;
    var n, grown := |log|, log + [last];
    assert SoundWindow(grown[n].from, grown[n].to, grown[n].anchor);
    forall i | 0 <= i < n ensures grown[i].to <= grown[n].from {
      if i < n - 1 {
        assert log[i].to <= log[n - 1].from;
        SoundOrder(log, n - 1);
      }
    }
  }

  lemma SoundOrder(log: seq<Sent>, i: nat)
    requires Ordered(log) && i < |log|
    ensures log[i].from < log[i].to
  {
  }

  lemma RecordKeepsLog(w: World, p: Pid)
    requires Inv(w) && !w.lock.overran && WorkOf(w, p).Recording?
    ensures LogInv(Apply(w, Record(p)))
  {
    hide Lock.Inv, Lock.Apply, DueWindow, SoundWindow, Ordered, Chained;
    var w', k := Apply(w, Record(p)), WorkOf(w, p);
    forall q | q in w'.work && HasWindow(w'.work[q]) ensures false {
      Alone(w, p, q);
    }
    LogGrows(w.log, Sent(k.from, k.to, k.anchor));
  }

  lemma StepKeepsLog(w: World, e: Event)
    requires Inv(w) && !w.lock.overran
    ensures LogInv(Apply(w, e))
  {
    hide Lock.Inv, Lock.Apply, DueWindow, SoundWindow;
    if e.Record? && WorkOf(w, e.p).Recording? {
      RecordKeepsLog(w, e.p);
    } else if e.ReRead? && WorkOf(w, e.p).Entered? {
      DueIsSound(w.rule, WorkOf(w, e.p).now);
      SoundStart(w.rule, WorkOf(w, e.p).now);
    }
  }

  lemma SoundStart(r: Rule, now: int)
    ensures DueWindow(r, now).Due? ==> Anchor(r) <= DueWindow(r, now).from
  {
    DueIsSound(r, now);
  }

  lemma ApplyKeepsInv(w: World, e: Event)
    requires Inv(w)
    ensures Inv(Apply(w, e))
  {
    hide Lock.Inv, WorkInv, LogInv, Apply;
    LockFollows(w, e);
    StepKeepsWork(w, e);
    if !w.lock.overran {
      StepKeepsLog(w, e);
    }
  }

  lemma {:induction false} RunKeepsInv(w: World, es: seq<Event>)
    requires Initial(w)
    ensures Inv(Run(w, es))
    decreases |es|
  {
    hide Apply;
    if es == [] {
    } else {
      hide Inv;
      RunKeepsInv(w, es[..|es| - 1]);
      ApplyKeepsInv(Run(w, es[..|es| - 1]), es[|es| - 1]);
    }
  }

  // ---------------------------------------------------------------- main results

  /** In every interleaving of any number of instances in which no locked section or `DEL`
      outlives its TTL, the recorded windows are in order and pairwise disjoint; and as long as no
      edit re-arms the rule, a window starts exactly where the one before it ended if and only if
      it reaches back no more than 31 days. */
  lemma DigestWindows(w: World, es: seq<Event>)
    requires Initial(w)
    ensures var w' := Run(w, es);
            !w'.lock.overran ==>
              && (forall i :: 0 <= i < |w'.log| ==> w'.log[i].from < w'.log[i].to)
              && (forall i, j :: 0 <= i < j < |w'.log| ==> w'.log[i].to <= w'.log[j].from)
              && (!w'.rearmed ==> forall i :: 0 < i < |w'.log| ==>
                    (w'.log[i].from == w'.log[i - 1].to <==> w'.log[i].to - w'.log[i - 1].to <= MAX_WINDOW_MS))
  {
    hide Run, Apply, WorkInv, Lock.Inv;
    RunKeepsInv(w, es);
  }

  /** The watermark moves only when a mailed window is recorded, to the end of that window, or
      when an edit re-arms the rule: a send or a write that fails, a crash or a lost lock leaves it
      where it was, so the next attempt starts from the same anchor. */
  lemma WatermarkOnlyMovesOnSuccess(w: World, e: Event)
    requires Anchor(Apply(w, e).rule) != Anchor(w.rule)
    ensures e.Record? || e.Edit?
    ensures e.Record? ==>
              && WorkOf(w, e.p).Recording?
              && Anchor(Apply(w, e).rule) == WorkOf(w, e.p).to
              && Apply(w, e).log == w.log + [Sent(WorkOf(w, e.p).from, WorkOf(w, e.p).to, WorkOf(w, e.p).anchor)]
    ensures e.Edit? ==> e.digest && !w.rule.digest && Apply(w, e).rearmed
  {
    hide DueWindow, Lock.Apply;
  }

  /** Switching a rule into digest mode restarts its watermark at that moment; any other edit leaves
      it where it is. */
  lemma EditRearmsIff(w: World, active: bool, digest: bool, cadence: Cadence)
    ensures var t := Apply(w, Edit(active, digest, cadence));
            && t.rule.active == active && t.rule.digest == digest && t.rule.cadence == cadence
            && Anchor(t.rule) == if digest && !w.rule.digest then w.lock.now else Anchor(w.rule)
  {
  }

  /** A mail goes out only from inside the lock, for the window that is due by the rule as it
      stands at that moment. */
  lemma SendsWhatIsDue(w: World, p: Pid)
    requires Inv(w) && WorkOf(w, p).Entered? && WorkOf(Apply(w, ReRead(p)), p).Sending?
    ensures var s := WorkOf(Apply(w, ReRead(p)), p);
            && Lock.PhaseOf(w.lock, p).Inside?
            && w.rule.active && w.rule.digest
            && DueWindow(w.rule, WorkOf(w, p).now) == Due(s.from, s.to) && s.anchor == Anchor(w.rule)
            && (exists q :: IsSlot(Normalize(w.rule.cadence), q) && Anchor(w.rule) < q <= s.to)
  {
    hide Lock.Inv, DigestDue;
    DueMeansSlotPassed(w.rule.cadence, Anchor(w.rule), WorkOf(w, p).now);
  }

  // ---------------------------------------------------------------- one undisturbed pass

  /** What `sendDigest` and the write after it come to for one rule. */
  datatype Outcome = Mailed(emails: nat, findings: nat) | Throws | WriteThrows

  datatype Summary = Summary(considered: nat, sent: nat, emails: nat, failed: nat, toNobody: nat)

  type RuleId = int

  /** The rule after one pass in which `locked` are held elsewhere. */
  function AfterPass(r: Rule, locked: bool, o: Outcome, now: int): Rule {
    if DueWindow(r, now).Due? && !locked && o.Mailed? then r.(lastDigestAt := Some(now)) else r
  }

  function Count(r: Rule, locked: bool, o: Outcome, now: int, s: Summary): Summary {
    if DueWindow(r, now).NotDue? || locked then s
    else if !o.Mailed? then s.(failed := s.failed + 1)
    else s.(sent := s.sent + 1, emails := s.emails + o.emails,
            toNobody := s.toNobody + if o.findings > 0 && o.emails == 0 then 1 else 0)
  }

  ghost function Total(
      rules: map<RuleId, Rule>, ids: seq<RuleId>, locked: set<RuleId>, outcome: RuleId -> Outcome, now: int): Summary
    requires forall id :: id in ids ==> id in rules
    decreases |ids|
  {
    if ids == [] then Summary(0, 0, 0, 0, 0)
    else
      var id, t := ids[|ids| - 1], Total(rules, ids[..|ids| - 1], locked, outcome, now);
      Count(rules[id], id in locked, outcome(id), now, t.(considered := t.considered + 1))
  }

  /** The rule is switched on for digests, and a slot of its cadence has arrived since its last one,
      or since it was made. */
  ghost predicate IsDue(r: Rule, now: int) {
    r.active && r.digest && exists q :: IsSlot(Normalize(r.cadence), q) && Anchor(r) < q <= now
  }

  ghost predicate IsMailed(r: Rule, locked: bool, o: Outcome, now: int) { IsDue(r, now) && !locked && o.Mailed? }

  ghost predicate IsFailed(r: Rule, locked: bool, o: Outcome, now: int) { IsDue(r, now) && !locked && !o.Mailed? }

  ghost predicate Distinct(ids: seq<RuleId>) { forall i, j :: 0 <= i < j < |ids| ==> ids[i] != ids[j] }

  ghost function Those(ids: seq<RuleId>, p: RuleId -> bool): set<RuleId> { set id | id in ids && p(id) }

  /** The rules of a pass that are mailed, those that fail, and those whose mail reaches nobody
      although there is something to say. */
  ghost function Reaching(
      rules: map<RuleId, Rule>, locked: set<RuleId>, outcome: RuleId -> Outcome, now: int): RuleId -> bool
  {
    id => id in rules && IsMailed(rules[id], id in locked, outcome(id), now)
  }

  ghost function Failing(
      rules: map<RuleId, Rule>, locked: set<RuleId>, outcome: RuleId -> Outcome, now: int): RuleId -> bool
  {
    id => id in rules && IsFailed(rules[id], id in locked, outcome(id), now)
  }

  ghost function Unheard(
      rules: map<RuleId, Rule>, locked: set<RuleId>, outcome: RuleId -> Outcome, now: int): RuleId -> bool
  {
    id => id in rules && IsMailed(rules[id], id in locked, outcome(id), now)
          && outcome(id).findings > 0 && outcome(id).emails == 0
  }

  ghost function Emails(
      rules: map<RuleId, Rule>, ids: seq<RuleId>, locked: set<RuleId>, outcome: RuleId -> Outcome, now: int): nat
    decreases |ids|
  {
    if ids == [] then 0
    else
      var id := ids[|ids| - 1];
      Emails(rules, ids[..|ids| - 1], locked, outcome, now)
      + if id in rules && IsMailed(rules[id], id in locked, outcome(id), now) then outcome(id).emails else 0
  }

  lemma DueIsDue(r: Rule, now: int)
    ensures DueWindow(r, now).Due? <==> IsDue(r, now)
  {
    DueMeansSlotPassed(r.cadence, Anchor(r), now);
    hide DigestDue, IsSlot;
  }

  /** A rule changes in a pass if and only if it is mailed, and then its watermark moves to now. */
  lemma PassMeans(r: Rule, locked: bool, o: Outcome, now: int)
    ensures AfterPass(r, locked, o, now) == if IsMailed(r, locked, o, now) then r.(lastDigestAt := Some(now)) else r
  {
    DueIsDue(r, now);
    hide DueWindow, IsDue;
  }

  lemma CountMeans(r: Rule, locked: bool, o: Outcome, now: int, s: Summary)
    ensures var t := Count(r, locked, o, now, s);
            && t.considered == s.considered
            && t.sent == s.sent + (if IsMailed(r, locked, o, now) then 1 else 0)
            && t.failed == s.failed + (if IsFailed(r, locked, o, now) then 1 else 0)
            && t.emails == s.emails + (if IsMailed(r, locked, o, now) then o.emails else 0)
            && t.toNobody == s.toNobody
                 + (if IsMailed(r, locked, o, now) && o.findings > 0 && o.emails == 0 then 1 else 0)
  {
    DueIsDue(r, now);
    hide DueWindow, IsDue;
  }

  lemma ThoseGrow(ids: seq<RuleId>, p: RuleId -> bool)
    requires ids != [] && Distinct(ids)
    ensures |Those(ids, p)| == |Those(ids[..|ids| - 1], p)| + if p(ids[|ids| - 1]) then 1 else 0
  {
    var front, id := ids[..|ids| - 1], ids[|ids| - 1];
    assert ids == front + [id] && id !in front;
    if p(id) {
      assert Those(ids, p) == Those(front, p) + {id};
    } else {
      assert Those(ids, p) == Those(front, p);
    }
  }

  /** The summary counts the rules. */
  lemma {:induction false} TotalMeans(
      rules: map<RuleId, Rule>, ids: seq<RuleId>, locked: set<RuleId>, outcome: RuleId -> Outcome, now: int)
    requires Distinct(ids) && forall id :: id in ids ==> id in rules
    ensures Total(rules, ids, locked, outcome, now)
            == Summary(|ids|, |Those(ids, Reaching(rules, locked, outcome, now))|,
                       Emails(rules, ids, locked, outcome, now), |Those(ids, Failing(rules, locked, outcome, now))|,
                       |Those(ids, Unheard(rules, locked, outcome, now))|)
    decreases |ids|
  {
    if ids == [] {
      assert forall p :: Those(ids, p) == {};
    } else {
      hide Count, IsMailed, IsFailed, Those;
      var front, id := ids[..|ids| - 1], ids[|ids| - 1];
      TotalMeans(rules, front, locked, outcome, now);
      ThoseGrow(ids, Reaching(rules, locked, outcome, now));
      ThoseGrow(ids, Failing(rules, locked, outcome, now));
      ThoseGrow(ids, Unheard(rules, locked, outcome, now));
      MailedIsMailed(rules[id], id in locked, outcome(id), now);
      var t := Total(rules, front, locked, outcome, now);
      CountMeans(rules[id], id in locked, outcome(id), now, t.(considered := t.considered + 1));
    }
  }

  lemma MailedIsMailed(r: Rule, locked: bool, o: Outcome, now: int)
    ensures IsMailed(r, locked, o, now) ==> o.Mailed?
  {
  }

  lemma RunThen(w: World, es: seq<Event>, e: Event)
    ensures Run(w, es + [e]) == Apply(Run(w, es), e)
  {
    assert (es + [e])[..|es + [e]| - 1] == es;
  }

  function UpToSending(p: Pid, now: int): seq<Event> { [Begin(p, now)] + [TryEnter(p)] + [ReRead(p)] }

  /** What an instance does that nothing disturbs. */
  function Undisturbed(p: Pid, now: int, o: Outcome): seq<Event> {
    match o
    case Mailed(_, _) => UpToSending(p, now) + [SendReturns(p)] + [Record(p)] + [DelLands(p)]
    case Throws => UpToSending(p, now) + [SendThrows(p)] + [DelLands(p)]
    case WriteThrows => UpToSending(p, now) + [SendReturns(p)] + [RecordThrows(p)] + [DelLands(p)]
  }

  /** The same from the mail on. */
  function Outcomes(w: World, p: Pid, o: Outcome): World {
    match o
    case Mailed(_, _) => Apply(Apply(Apply(w, SendReturns(p)), Record(p)), DelLands(p))
    case Throws => Apply(Apply(w, SendThrows(p)), DelLands(p))
    case WriteThrows => Apply(Apply(Apply(w, SendReturns(p)), RecordThrows(p)), DelLands(p))
  }

  lemma SendingUnlessNotDue(w: World, p: Pid, now: int)
    requires WorkOf(w, p).Idle? && Lock.PhaseOf(w.lock, p).Out? && Lock.KeyFree(w.lock) && now <= w.lock.now
    ensures var u := Apply(Apply(Apply(w, Begin(p, now)), TryEnter(p)), ReRead(p));
            && u.rule == w.rule && u.lock.now == w.lock.now && u.log == w.log
            && (IsDue(w.rule, now) ==>
                  Lock.PhaseOf(u.lock, p).Inside? && WorkOf(u, p).Sending? && WorkOf(u, p).to == now)
            && (!IsDue(w.rule, now) ==> u == w)
  {
    DueIsDue(w.rule, now);
    DueIsSound(w.rule, now);
    hide DueWindow, IsDue, SoundWindow;
  }

  /** In the machine as in the loop: an instance that nothing disturbs moves the watermark to now
      exactly if the rule is due and mailed, and leaves the lock free. */
  lemma UndisturbedPass(w: World, p: Pid, now: int, o: Outcome)
    requires WorkOf(w, p).Idle? && Lock.PhaseOf(w.lock, p).Out? && Lock.KeyFree(w.lock) && now <= w.lock.now
    ensures var t := Run(w, Undisturbed(p, now, o));
            && t.rule == (if IsMailed(w.rule, false, o, now) then w.rule.(lastDigestAt := Some(now)) else w.rule)
            && |t.log| == |w.log| + (if IsMailed(w.rule, false, o, now) then 1 else 0)
            && WorkOf(t, p).Idle? && Lock.PhaseOf(t.lock, p).Out? && Lock.KeyFree(t.lock)
  {
    UndisturbedUnrolls(w, p, now, o);
    hide Run, DueWindow, IsDue, Undisturbed, UpToSending, Apply, Outcomes;
    SendingUnlessNotDue(w, p, now);
    var u := Apply(Apply(Apply(w, Begin(p, now)), TryEnter(p)), ReRead(p));
    if IsDue(w.rule, now) {
      SentOutcomes(u, p, o);
    } else {
      IdleOutcomes(w, p, o);
    }
  }

  lemma UndisturbedUnrolls(w: World, p: Pid, now: int, o: Outcome)
    ensures Run(w, Undisturbed(p, now, o))
            == Outcomes(Apply(Apply(Apply(w, Begin(p, now)), TryEnter(p)), ReRead(p)), p, o)
  {
    assert [] + [Begin(p, now)] == [Begin(p, now)];
    RunThen(w, [], Begin(p, now));
    RunThen(w, [Begin(p, now)], TryEnter(p));
    RunThen(w, [Begin(p, now)] + [TryEnter(p)], ReRead(p));
    var es := UpToSending(p, now);
    match o {
      case Mailed(_, _) =>
        RunThen(w, es, SendReturns(p));
        RunThen(w, es + [SendReturns(p)], Record(p));
        RunThen(w, es + [SendReturns(p)] + [Record(p)], DelLands(p));
      case Throws =>
        RunThen(w, es, SendThrows(p));
        RunThen(w, es + [SendThrows(p)], DelLands(p));
      case WriteThrows =>
        RunThen(w, es, SendReturns(p));
        RunThen(w, es + [SendReturns(p)], RecordThrows(p));
        RunThen(w, es + [SendReturns(p)] + [RecordThrows(p)], DelLands(p));
    }
    hide Run, Apply;
  }

  lemma SentOutcomes(u: World, p: Pid, o: Outcome)
    requires Lock.PhaseOf(u.lock, p).Inside? && WorkOf(u, p).Sending?
    ensures var t := Outcomes(u, p, o);
            && t.rule == (if o.Mailed? then u.rule.(lastDigestAt := Some(WorkOf(u, p).to)) else u.rule)
            && |t.log| == |u.log| + (if o.Mailed? then 1 else 0)
            && WorkOf(t, p).Idle? && Lock.PhaseOf(t.lock, p).Out? && Lock.KeyFree(t.lock)
  {
  }

  lemma IdleOutcomes(u: World, p: Pid, o: Outcome)
    requires WorkOf(u, p).Idle? && Lock.PhaseOf(u.lock, p).Out?
    ensures Outcomes(u, p, o) == u
  {
  }

  class RuleTable {
    var rules: map<RuleId, Rule>

    constructor (rules: map<RuleId, Rule>)
      ensures this.rules == rules
    {
      this.rules := rules;
    }

    /** The body of the loop for one rule. */
    static method DigestRule(
        rules: map<RuleId, Rule>, id: RuleId, locked: bool, outcome: Outcome, now: int, before: Summary)
      returns (after: map<RuleId, Rule>, summary: Summary)
      requires id in rules
      ensures after == rules[id := AfterPass(rules[id], locked, outcome, now)]
      ensures summary == Count(rules[id], locked, outcome, now, before.(considered := before.considered + 1))
    {
      hide DigestDue;
      after, summary := rules, before.(considered := before.considered + 1);
      var window := DueWindow(rules[id], now);
      if window.NotDue? || locked {
        assert after == rules[id := rules[id]];
        return;
      }
      var current := rules[id];
      var recheck := DueWindow(current, now);
      DueIsSound(current, now);
      match outcome
      case Mailed(emails, findings) =>
        after := rules[id := current.(lastDigestAt := Some(recheck.to))];
        summary := summary.(sent := summary.sent + 1, emails := summary.emails + emails,
                            toNobody := summary.toNobody + if findings > 0 && emails == 0 then 1 else 0);
      case _ =>
        summary := summary.(failed := summary.failed + 1);
        assert after == rules[id := rules[id]];
    }

    /** `runDigestPass` over the listed rules: a rule changes exactly if it is due, its lock is free
        and it could be mailed and recorded, and then its watermark moves to now. */
    method RunDigestPass(listed: seq<RuleId>, locked: set<RuleId>, outcome: RuleId -> Outcome, now: int)
      returns (summary: Summary)
      requires Distinct(listed)
      requires forall id :: id in listed ==> id in rules
      modifies this
      ensures rules.Keys == old(rules.Keys)
      ensures forall id :: id in rules ==>
                rules[id] == if id in listed && Reaching(old(rules), locked, outcome, now)(id)
                             then old(rules[id]).(lastDigestAt := Some(now)) else old(rules[id])
      ensures summary.considered == |listed|
      ensures summary.sent == |Those(listed, Reaching(old(rules), locked, outcome, now))|
      ensures summary.failed == |Those(listed, Failing(old(rules), locked, outcome, now))|
      ensures summary.emails == Emails(old(rules), listed, locked, outcome, now)
      ensures summary.toNobody == |Those(listed, Unheard(old(rules), locked, outcome, now))|
    {
      hide AfterPass, Count, IsMailed, IsFailed;
      summary := Summary(0, 0, 0, 0, 0);
      var i := 0;
      assert listed[..0] == [];
      while i < |listed|
        invariant 0 <= i <= |listed|
        invariant rules.Keys == old(rules.Keys)
        invariant forall id :: id in rules ==>
                    rules[id] == if id in listed[..i] then AfterPass(old(rules[id]), id in locked, outcome(id), now)
                                 else old(rules[id])
        invariant summary == Total(old(rules), listed[..i], locked, outcome, now)
      {
        var id := listed[i];
        assert id !in listed[..i];
        assert listed[..i + 1][..i] == listed[..i];
        rules, summary := DigestRule(rules, id, id in locked, outcome(id), now, summary);
        i := i + 1;
      }
      assert listed[..i] == listed;
      TotalMeans(old(rules), listed, locked, outcome, now);
      forall id | id in listed
        ensures rules[id] == if IsMailed(old(rules)[id], id in locked, outcome(id), now)
                             then old(rules)[id].(lastDigestAt := Some(now)) else old(rules)[id]
      {
        PassMeans(old(rules)[id], id in locked, outcome(id), now);
      }
    }
  }
}
