/** The scheduled audit digest: which audit records a sequence of digests mails, when records
    commit late, windows are clamped, attachments are cut off and passes fail. */
module AuditDigest {
  import opened DigestSchedule
  import opened Numbers
  import opened Wrappers

  type Id = int

  /** `at` is the record's `createdAt`; it can be read from its commit on. */
  datatype Record = Record(id: Id, at: int)

  /** A window whose rows have been read, and are being mailed. */
  datatype Reading = Reading(tick: int, from: int, ceiling: int, rows: seq<Record>)

  /** `start` is the sink's creation and `watermark` its `lastOkAt`, or `start` before its first
      digest. The sets are history: records in a recorded digest, beyond its row limit, before the
      start of a clamped window, passed by the watermark without having been read; those that took
      the read lag or longer to commit; then those mailed in a digest that could not be recorded,
      and those mailed more than once. */
  datatype State = State(
    now: int, lag: nat, max: nat, start: int, watermark: int, records: seq<Record>, reading: Option<Reading>,
    sent: set<Id>, cut: set<Id>, clamped: set<Id>, late: set<Id>, slow: set<Id>,
    unrecorded: set<Id>, twice: set<Id>)

  datatype Outcome = Recorded | DeliveryFails | RecordFails

  /** A pass reads and later finishes; records may commit in between. `tick` is when the job began;
      the reading clock may be later. `Abandoned`: the process has died. */
  datatype Event =
    | Commit(r: Record)
    | Read(cadence: Cadence, tick: int)
    | Finish(outcome: Outcome)
    | Abandoned
    | Tick(elapsed: nat)

  predicate Before(a: Record, b: Record) { a.at < b.at || (a.at == b.at && a.id < b.id) }

  function Insert(rs: seq<Record>, r: Record): seq<Record> {
    if rs == [] then [r]
    else if Before(r, rs[0]) then [r] + rs
    else [rs[0]] + Insert(rs[1..], r)
  }

  function Ids(rs: seq<Record>): set<Id> { set r | r in rs :: r.id }

  /** The records from `from` to `ceiling`, both included. */
  function Between(rs: seq<Record>, from: int, ceiling: int): seq<Record> {
    if rs == [] then []
    else (if from <= rs[0].at <= ceiling then [rs[0]] else []) + Between(rs[1..], from, ceiling)
  }

  function Clamped(rs: seq<Record>, watermark: int, from: int): set<Id> {
    set r | r in rs && watermark <= r.at < from :: r.id
  }

  function Ceiling(s: State, to: int): int { Least(to, s.now - s.lag) }

  /** There is a window to read, and some of it lies outside the read lag. */
  predicate Reads(s: State, cadence: Cadence, tick: int) {
    && tick <= s.now
    && DigestDue(cadence, s.watermark, tick).Due?
    && Ceiling(s, DigestDue(cadence, s.watermark, tick).to) > DigestDue(cadence, s.watermark, tick).from
  }

  /** Records of the window that were not among its rows: they committed after the reading. */
  function Overtaken(rs: seq<Record>, rd: Reading): set<Id> {
    set r | r in rs && rd.from <= r.at <= rd.ceiling && r !in rd.rows :: r.id
  }

  function FinishDigest(s: State, rd: Reading, outcome: Outcome): State {
    var n := Least(s.max, |rd.rows|);
    var taken, again := Ids(rd.rows[..n]), Ids(rd.rows[..n]) * (s.sent + s.unrecorded);
    var t := s.(reading := None);
    match outcome
    case DeliveryFails => t
    case RecordFails => t.(unrecorded := s.unrecorded + taken, twice := s.twice + again)
    case Recorded =>
      t.(watermark := rd.ceiling + 1, sent := s.sent + taken, cut := s.cut + Ids(rd.rows[n..]),
         clamped := s.clamped + Clamped(s.records, s.watermark, rd.from), late := s.late + Overtaken(s.records, rd),
         twice := s.twice + again)
  }

  function ReadWindow(s: State, cadence: Cadence, tick: int): Reading
    requires Reads(s, cadence, tick)
  {
    var w := DigestDue(cadence, s.watermark, tick);
    Reading(tick, w.from, Ceiling(s, w.to), Between(s.records, w.from, Ceiling(s, w.to)))
  }

  function Apply(s: State, e: Event): State {
    match e
    case Tick(elapsed) => s.(now := s.now + elapsed)
    case Commit(r) =>
      if r.at > s.now || r.id in Ids(s.records) then s
      else
        s.(records := Insert(s.records, r),
           late := if s.start <= r.at < s.watermark then s.late + {r.id} else s.late,
           slow := if s.now - r.at >= s.lag then s.slow + {r.id} else s.slow)
    case Read(cadence, tick) =>
      if s.reading.Some? || !Reads(s, cadence, tick) then s else s.(reading := Some(ReadWindow(s, cadence, tick)))
    case Finish(outcome) => if s.reading.None? then s else FinishDigest(s, s.reading.value, outcome)
    case Abandoned => s.(reading := None)
  }

  function Run(s: State, es: seq<Event>): State
    decreases |es|
  {
    if es == [] then s else Apply(Run(s, es[..|es| - 1]), es[|es| - 1])
  }

  predicate Initial(s: State) {
    && s.watermark == s.start <= s.now && s.records == [] && s.reading.None?
    && s.sent == s.cut == s.clamped == s.late == s.slow == s.unrecorded == s.twice == {}
  }

  // ---------------------------------------------------------------- the log, in order

  ghost predicate Ascending(rs: seq<Record>) {
    forall i, j :: 0 <= i < j < |rs| ==> Before(rs[i], rs[j])
  }

  ghost predicate OnePerId(rs: seq<Record>) {
    forall a, b :: a in rs && b in rs && a.id == b.id ==> a == b
  }

  lemma {:induction false} InsertHolds(rs: seq<Record>, r: Record, x: Record)
    ensures x in Insert(rs, r) <==> x == r || x in rs
  {
    if rs != [] && !Before(r, rs[0]) {
      InsertHolds(rs[1..], r, x);
      assert rs == [rs[0]] + rs[1..];
    }
  }

  lemma {:induction false} InsertAscends(rs: seq<Record>, r: Record)
    requires Ascending(rs) && r.id !in Ids(rs)
    ensures Ascending(Insert(rs, r))
  {
    if rs != [] && !Before(r, rs[0]) {
      assert Before(rs[0], r) by {
        assert rs[0] in rs;
      }
      assert forall x :: x in rs[1..] ==> x in rs;
      InsertAscends(rs[1..], r);
      forall x | x in Insert(rs[1..], r) ensures Before(rs[0], x) {
        InsertHolds(rs[1..], r, x);
      }
    }
  }

  lemma {:induction false} BetweenHolds(rs: seq<Record>, from: int, ceiling: int, x: Record)
    ensures x in Between(rs, from, ceiling) <==> x in rs && from <= x.at <= ceiling
  {
    if rs == [] {
    } else {
      BetweenHolds(rs[1..], from, ceiling, x);
      assert rs == [rs[0]] + rs[1..];
    }
  }

  lemma {:induction false} BetweenAscends(rs: seq<Record>, from: int, ceiling: int)
    requires Ascending(rs)
    ensures Ascending(Between(rs, from, ceiling))
  {
    if rs == [] {
    } else {
      BetweenAscends(rs[1..], from, ceiling);
      forall x | x in Between(rs[1..], from, ceiling) ensures Before(rs[0], x) {
        BetweenHolds(rs[1..], from, ceiling, x);
      }
    }
  }

  // ---------------------------------------------------------------- what every step keeps

  /** Where the record stands: one of the four counts, or none of them. */
  function Fates(s: State, r: Record): nat {
    (if r.id in s.sent then 1 else 0) + (if r.id in s.cut then 1 else 0)
    + (if r.id in s.clamped then 1 else 0) + (if r.id in s.late then 1 else 0)
  }

  /** A record has exactly one fate once the watermark has passed it, and none before. */
  ghost predicate Placed(s: State) {
    forall r <- s.records :: Fates(s, r) == if s.start <= r.at < s.watermark then 1 else 0
  }

  ghost predicate Known(s: State) {
    s.sent + s.cut + s.clamped + s.late + s.slow + s.unrecorded <= Ids(s.records)
  }

  /** The rows of a reading are the window as it was; what has joined it since was slow. */
  ghost predicate ReadingInv(s: State, rd: Reading) {
    && s.watermark <= rd.from < rd.ceiling <= s.now - s.lag
    && (s.watermark < rd.from ==> rd.tick - s.watermark > MAX_WINDOW_MS)
    && Ascending(rd.rows)
    && (forall r <- rd.rows :: r in s.records && rd.from <= r.at <= rd.ceiling)
    && Overtaken(s.records, rd) <= s.slow
  }

  ghost predicate Inv(s: State) {
    && Ascending(s.records) && OnePerId(s.records)
    && Placed(s) && Known(s)
    && s.twice <= s.unrecorded && s.late <= s.slow
    && s.start <= s.watermark
    && (s.watermark == s.start || s.watermark <= s.now - s.lag + 1)
    && (s.reading.Some? ==> ReadingInv(s, s.reading.value))
  }

  lemma CommitKeepsInv(s: State, r: Record)
    requires Inv(s)
    ensures Inv(Apply(s, Commit(r)))
  {
    hide Overtaken;
    var t := Apply(s, Commit(r));
    if r.at <= s.now && r.id !in Ids(s.records) {
      InsertAscends(s.records, r);
      forall x ensures x in t.records <==> x == r || x in s.records {
        InsertHolds(s.records, r, x);
      }
      CommitPlaces(s, r, t);
      if s.reading.Some? {
        CommitKeepsReading(s, r, t, s.reading.value);
      }
    }
  }

  lemma CommitKeepsReading(s: State, r: Record, t: State, rd: Reading)
    requires ReadingInv(s, rd) && t == Apply(s, Commit(r)) && r.id !in Ids(s.records) && r.at <= s.now
    requires forall x :: x in t.records <==> x == r || x in s.records
    ensures ReadingInv(t, rd)
  {
    hide Insert, Ascending;
    forall id | id in Overtaken(t.records, rd) ensures id in t.slow {
      var x :| x in t.records && rd.from <= x.at <= rd.ceiling && x !in rd.rows && x.id == id;
      if x != r {
        assert id in Overtaken(s.records, rd);
      }
    }
  }

  lemma CommitPlaces(s: State, r: Record, t: State)
    requires Inv(s) && r.id !in Ids(s.records) && r.at <= s.now
    requires t == Apply(s, Commit(r)) && forall x :: x in t.records <==> x == r || x in s.records
    ensures Placed(t) && Known(t) && OnePerId(t.records)
  {
    hide Insert, Ascending, ReadingInv;
    assert r.id !in s.sent + s.cut + s.clamped + s.late + s.slow + s.unrecorded;
    forall x | x in s.records ensures x.id != r.id && Fates(t, x) == Fates(s, x) {
      assert x.id in Ids(s.records);
    }
    assert Ids(t.records) == Ids(s.records) + {r.id};
  }

  /** What a window's rows are when they are read. */
  lemma ReadKeepsInv(s: State, cadence: Cadence, tick: int)
    requires Inv(s) && Reads(s, cadence, tick)
    ensures ReadingInv(s, ReadWindow(s, cadence, tick))
  {
    DueMeansSlotPassed(cadence, s.watermark, tick);
    hide DigestDue, Ascending, OnePerId, Placed, Known;
    var rd := ReadWindow(s, cadence, tick);
    BetweenAscends(s.records, rd.from, rd.ceiling);
    forall x ensures x in rd.rows <==> x in s.records && rd.from <= x.at <= rd.ceiling {
      BetweenHolds(s.records, rd.from, rd.ceiling, x);
    }
    hide Between;
    assert Overtaken(s.records, rd) == {};
  }

  /** The rows up to the limit, the rest, and the records that came later are those of the window,
      each in one of the three, the taken ones before the rest. */
  lemma WindowSplits(s: State, rd: Reading)
    requires Inv(s) && ReadingInv(s, rd)
    ensures var n := Least(s.max, |rd.rows|);
            && (forall r <- s.records :: rd.from <= r.at <= rd.ceiling
                  <==> r.id in Ids(rd.rows[..n]) || r.id in Ids(rd.rows[n..]) || r.id in Overtaken(s.records, rd))
            && Ids(rd.rows[..n]) !! Ids(rd.rows[n..])
            && Ids(rd.rows[..n]) + Ids(rd.rows[n..]) !! Overtaken(s.records, rd)
            && Ids(rd.rows[..n]) + Ids(rd.rows[n..]) + Overtaken(s.records, rd) <= Ids(s.records)
            && (forall a, b :: a in rd.rows[..n] && b in rd.rows[n..] ==> Before(a, b))
  {
    hide Placed, Known;
    var n := Least(s.max, |rd.rows|);
    assert rd.rows == rd.rows[..n] + rd.rows[n..];
    forall r | r in s.records
      ensures rd.from <= r.at <= rd.ceiling
              <==> r.id in Ids(rd.rows[..n]) || r.id in Ids(rd.rows[n..]) || r.id in Overtaken(s.records, rd)
    {
      if r in rd.rows {
        assert r in rd.rows[..n] || r in rd.rows[n..];
      }
    }
  }

  lemma FateAfter(s: State, rd: Reading, r: Record)
    requires Inv(s) && ReadingInv(s, rd) && r in s.records
    ensures var t := FinishDigest(s, rd, Recorded);
            Fates(t, r) == if s.start <= r.at < t.watermark then 1 else 0
  {
    WindowSplits(s, rd);
    ClampedHolds(s, r, rd.from);
    assert Fates(s, r) == if s.start <= r.at < s.watermark then 1 else 0;
    hide Ids, Overtaken, Clamped, Ascending, OnePerId, Known, Placed;
  }

  lemma RecordedPlaces(s: State, rd: Reading)
    requires Inv(s) && ReadingInv(s, rd)
    ensures Placed(FinishDigest(s, rd, Recorded)) && Known(FinishDigest(s, rd, Recorded))
  {
    WindowSplits(s, rd);
    ClampedKnown(s, rd.from);
    hide Ids, Overtaken, Ascending, Clamped, Fates;
    forall r | r in s.records
      ensures var t := FinishDigest(s, rd, Recorded);
              Fates(t, r) == if s.start <= r.at < t.watermark then 1 else 0
    {
      FateAfter(s, rd, r);
    }
  }

  lemma ClampedHolds(s: State, r: Record, from: int)
    requires OnePerId(s.records) && r in s.records
    ensures r.id in Clamped(s.records, s.watermark, from) <==> s.watermark <= r.at < from
  {
  }

  lemma ClampedKnown(s: State, from: int)
    ensures Clamped(s.records, s.watermark, from) <= Ids(s.records)
  {
  }

  /** A record that has been mailed and recorded is behind the watermark for good. */
  lemma NothingAgain(s: State, rd: Reading, outcome: Outcome)
    requires Inv(s) && ReadingInv(s, rd)
    ensures FinishDigest(s, rd, outcome).twice <= FinishDigest(s, rd, outcome).unrecorded
    ensures Known(FinishDigest(s, rd, outcome))
  {
    WindowSplits(s, rd);
    RecordedPlaces(s, rd);
    var n := Least(s.max, |rd.rows|);
    forall id | id in Ids(rd.rows[..n]) ensures id !in s.sent {
      var r :| r in s.records && r.id == id;
    }
  }

  lemma FinishPlaces(s: State, rd: Reading, outcome: Outcome)
    requires Inv(s) && ReadingInv(s, rd)
    ensures Placed(FinishDigest(s, rd, outcome))
  {
    RecordedPlaces(s, rd);
    hide Ids, Ascending, OnePerId, Known, Overtaken, ReadingInv, Clamped;
  }

  lemma FinishKeepsInv(s: State, rd: Reading, outcome: Outcome)
    requires Inv(s) && ReadingInv(s, rd)
    ensures Inv(FinishDigest(s, rd, outcome))
  {
    FinishPlaces(s, rd, outcome);
    NothingAgain(s, rd, outcome);
    hide Ids, Ascending, OnePerId, Known, Overtaken, Placed, Clamped;
  }

  lemma TimeKeepsInv(s: State, elapsed: nat, reading: Option<Reading>)
    requires Inv(s) && (reading == s.reading || reading.None?)
    ensures Inv(s.(now := s.now + elapsed, reading := reading))
  {
    hide Ids, Ascending, OnePerId, Overtaken;
  }

  lemma WindowKeepsInv(s: State, rd: Reading)
    requires Inv(s) && ReadingInv(s, rd)
    ensures Inv(s.(reading := Some(rd)))
  {
    hide Ids, Ascending, OnePerId, Overtaken;
  }

  lemma ApplyKeepsInv(s: State, e: Event)
    requires Inv(s)
    ensures Inv(Apply(s, e))
  {
    hide Ids, Ascending, OnePerId, Placed, Known, Overtaken, FinishDigest, Reads, ReadWindow, Insert;
    match e
    case Tick(elapsed) => TimeKeepsInv(s, elapsed, s.reading);
    case Commit(r) => CommitKeepsInv(s, r);
    case Read(cadence, tick) =>
      if Reads(s, cadence, tick) {
        ReadKeepsInv(s, cadence, tick);
        WindowKeepsInv(s, ReadWindow(s, cadence, tick));
      }
    case Finish(outcome) => if s.reading.Some? { FinishKeepsInv(s, s.reading.value, outcome); }
    case Abandoned => TimeKeepsInv(s, 0, None);
  }

  lemma {:induction false} RunKeepsInv(s: State, es: seq<Event>)
    requires Initial(s)
    ensures Inv(Run(s, es)) && Run(s, es).start == s.start && Run(s, es).lag == s.lag && Run(s, es).max == s.max
    decreases |es|
  {
    hide Inv;
    if es == [] {
      InitialInv(s);
    } else {
      RunKeepsInv(s, es[..|es| - 1]);
      ApplyKeepsInv(Run(s, es[..|es| - 1]), es[|es| - 1]);
    }
  }

  lemma InitialInv(s: State)
    requires Initial(s)
    ensures Inv(s)
  {
  }

  // ---------------------------------------------------------------- main results

  /** Nothing is lost unseen: in every run, with records that commit at any moment of a pass, a
      record created since the sink was and before the watermark has been in exactly one recorded
      digest, if and only if it was not late, clamped off or beyond a row limit; the others have
      been in none. A record is mailed twice only if a digest with it could not be recorded. */
  lemma EveryRecordOnce(s: State, es: seq<Event>, r: Record)
    requires Initial(s) && r in Run(s, es).records
    ensures var t := Run(s, es);
            && (s.start <= r.at < t.watermark ==>
                  (r.id in t.sent <==> r.id !in t.late && r.id !in t.clamped && r.id !in t.cut))
            && (!(s.start <= r.at < t.watermark) ==> r.id !in t.sent)
            && (r.id in t.twice ==> r.id in t.unrecorded)
  {
    hide Run;
    RunKeepsInv(s, es);
    assert Fates(Run(s, es), r) == if s.start <= r.at < Run(s, es).watermark then 1 else 0;
  }

  /** A record is late only if it took at least the read lag to commit: that is what the ceiling
      of every window is clamped for. */
  lemma LateMeansSlow(s: State, es: seq<Event>)
    requires Initial(s)
    ensures Run(s, es).late <= Run(s, es).slow
  {
    hide Run;
    RunKeepsInv(s, es);
  }

  /** A pass clamps records off only when the watermark is more than 31 days old, and cuts records
      off only from a window with more than `max` rows - then the newest ones. */
  lemma WhoIsLeftOut(s: State, outcome: Outcome)
    requires Inv(s) && s.reading.Some?
    ensures var rd, t := s.reading.value, Apply(s, Finish(outcome));
            && (t.clamped != s.clamped ==> rd.tick - s.watermark > MAX_WINDOW_MS)
            && (t.cut != s.cut ==> |rd.rows| > s.max)
            && (forall a, b ::
                  (a in s.records && b in s.records && rd.from <= a.at && a.id in t.sent && b.id in t.cut - s.cut)
                  ==> Before(a, b))
  {
    var rd, t := s.reading.value, Apply(s, Finish(outcome));
    var n := Least(s.max, |rd.rows|);
    WindowSplits(s, rd);
    hide Overtaken, Ascending, Known;
    if t.clamped != s.clamped {
      assert Clamped(s.records, s.watermark, rd.from) != {};
    }
    forall a, b | a in s.records && b in s.records && rd.from <= a.at && a.id in t.sent && b.id in t.cut - s.cut
      ensures Before(a, b)
    {
      assert Fates(s, a) == 0;
      var x :| x in rd.rows[..n] && x.id == a.id;
      var y :| y in rd.rows[n..] && y.id == b.id;
      assert x in rd.rows && y in rd.rows;
    }
  }

  /** A slot of the cadence has come since the watermark, and the window back to it, without what
      lies in the read lag, is not empty. */
  ghost predicate Opens(watermark: int, lag: nat, cadence: Cadence, tick: int, now: int) {
    && (exists q :: IsSlot(Normalize(cadence), q) && watermark < q <= tick)
    && WindowStart(watermark, tick) < Least(tick, now - lag)
  }

  /** When a pass reads, and what: the records of the log in the window, in order. */
  lemma ReadsIff(s: State, cadence: Cadence, tick: int)
    requires Inv(s) && tick <= s.now
    ensures Reads(s, cadence, tick) <==> Opens(s.watermark, s.lag, cadence, tick, s.now)
    ensures Reads(s, cadence, tick) ==>
              var rd := ReadWindow(s, cadence, tick);
              && rd.from == WindowStart(s.watermark, tick) && rd.ceiling == Least(tick, s.now - s.lag)
              && Ascending(rd.rows)
              && forall r :: r in rd.rows <==> r in s.records && rd.from <= r.at <= rd.ceiling
  {
    DueMeansSlotPassed(cadence, s.watermark, tick);
    hide DigestDue, Ascending, OnePerId, Placed, Known, IsSlot;
    if Reads(s, cadence, tick) {
      var rd := ReadWindow(s, cadence, tick);
      BetweenAscends(s.records, rd.from, rd.ceiling);
      forall r ensures r in rd.rows <==> r in s.records && rd.from <= r.at <= rd.ceiling {
        BetweenHolds(s.records, rd.from, rd.ceiling, r);
      }
    }
  }

  /** The watermark moves, behind the end of the window, if and only if a digest has been mailed
      and recorded; its rows, up to the limit, are then the ones added to the mailed. A failed
      mail, a failed write and a death leave the whole window to the next pass. */
  lemma WatermarkMovesIff(s: State, e: Event)
    requires Inv(s)
    ensures var t := Apply(s, e);
            if e == Finish(Recorded) && s.reading.Some? then
              var rd := s.reading.value;
              && t.watermark == rd.ceiling + 1 > s.watermark
              && t.sent == s.sent + Ids(rd.rows[..Least(s.max, |rd.rows|)])
              && t.cut == s.cut + Ids(rd.rows[Least(s.max, |rd.rows|)..])
            else
              t.watermark == s.watermark && t.sent == s.sent && t.cut == s.cut && t.clamped == s.clamped
  {
    hide Ids, Ascending, OnePerId, Placed, Known, Overtaken, Clamped, Reads, ReadWindow, Insert;
  }

  // ---------------------------------------------------------------- the sink

  lemma WholePass(s: State, cadence: Cadence, tick: int, outcome: Outcome)
    requires s.reading.None?
    ensures Apply(Apply(s, Read(cadence, tick)), Finish(outcome))
            == if Reads(s, cadence, tick) then FinishDigest(s, ReadWindow(s, cadence, tick), outcome) else s
  {
    hide Reads, ReadWindow, Ids, Overtaken, Clamped;
  }

  class Sink {
    const lag: nat
    const max: nat
    const start: int
    var watermark: int
    ghost var sent: set<Id>
    ghost var cut: set<Id>
    ghost var clamped: set<Id>
    ghost var late: set<Id>
    ghost var slow: set<Id>
    ghost var unrecorded: set<Id>
    ghost var twice: set<Id>

    ghost function Contents(now: int, records: seq<Record>): State
      reads this
    {
      State(now, lag, max, start, watermark, records, None, sent, cut, clamped, late, slow, unrecorded, twice)
    }

    constructor (lag: nat, max: nat, createdAt: int)
      ensures this.lag == lag && this.max == max
      ensures forall now :: now >= createdAt ==> Initial(Contents(now, []))
    {
      this.lag, this.max, start, watermark := lag, max, createdAt, createdAt;
      sent, cut, clamped, late, slow, unrecorded, twice := {}, {}, {}, {}, {}, {}, {};
    }

    /** The reading loop: rows of the stream up to the limit. */
    static method Collect(stream: seq<Record>, max: nat) returns (rows: seq<Record>, truncated: bool)
      ensures rows == stream[..Least(max, |stream|)] && (truncated <==> |stream| > max)
    {
      rows, truncated := [], false;
      var i := 0;
      while i < |stream|
        invariant 0 <= i <= |stream| && i <= max
        invariant rows == stream[..i] && !truncated
      {
        if |rows| >= max {
          truncated := true;
          break;
        }
        rows := rows + [stream[i]];
        i := i + 1;
      }
    }

    /** `runDigestSink` of a sink that is ready, with nothing in between. */
    method RunDigestSink(cadence: Cadence, tick: int, now: int, records: seq<Record>, outcome: Outcome)
      returns (delivered: nat)
      requires tick <= now
      modifies this
      ensures Contents(now, records) == Apply(Apply(old(Contents(now, records)), Read(cadence, tick)), Finish(outcome))
      ensures var opens := Opens(old(watermark), lag, cadence, tick, now) && outcome.Recorded?;
              var end := Least(tick, now - lag);
              var rows := Between(records, WindowStart(old(watermark), tick), end);
              && watermark == (if opens then end + 1 else old(watermark))
              && delivered == (if opens then Least(max, |rows|) else 0)
              && sent == old(sent) + (if opens then Ids(rows[..Least(max, |rows|)]) else {})
    {
      hide Apply, Between, Clamped, Overtaken, Ids, DigestDue, IsSlot;
      WholePass(Contents(now, records), cadence, tick, outcome);
      delivered := 0;
      DueMeansSlotPassed(cadence, watermark, tick);
      var window := DigestDue(cadence, watermark, tick);
      if window.NotDue? {
        return;
      }
      var ceiling := Least(window.to, now - lag);
      if ceiling <= window.from {
        return;
      }
      var stream := Between(records, window.from, ceiling);
      var rows, truncated := Collect(stream, max);
      ghost var again := Ids(rows) * (sent + unrecorded);
      if outcome.DeliveryFails? {
        return;
      }
      twice := twice + again;
      if outcome.RecordFails? {
        unrecorded := unrecorded + Ids(rows);
        return;
      }
      sent, cut := sent + Ids(rows), cut + Ids(stream[|rows|..]);
      clamped := clamped + Clamped(records, watermark, window.from);
      late := late + Overtaken(records, Reading(tick, window.from, ceiling, stream));
      watermark := ceiling + 1;
      delivered := |rows|;
    }
  }
}
