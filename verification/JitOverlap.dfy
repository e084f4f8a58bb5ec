/** A login that applies a manifest while a pass of the reaper is under way: the two loops, write
    by write, under any schedule. Every login reaps first, so the two meet all the time. */
module JitOverlap {
  import opened JitLease

  /** The next write of `apply_manifest`. */
  datatype Applying = ToAccount | ToDropIn | ToLease | Written

  /** Where the pass is: about to look at the next file, or removing a user it found due. */
  datatype Reaping =
    | Scan(todo: seq<User>)
    | AtDropIn(u: User, rest: seq<User>)
    | AtAccount(u: User, rest: seq<User>)
    | AtLease(u: User, rest: seq<User>)

  /** `now` and `sessions` are the pass's; `applyNow` is the login's clock. */
  datatype Setting = Setting(
    m: Manifest, applyNow: int, dateWorks: bool, now: int, sessions: map<User, Session>)

  /** `dropInStands` and `leaseStands` are history: the login's write has been made, and the pass
      has not removed the user's file since. */
  datatype Overlap = Overlap(host: State, apply: Applying, reap: Reaping, dropInStands: bool, leaseStands: bool)

  datatype Turn = LoginWrites | PassMoves

  function Write(c: Setting, o: Overlap): Overlap {
    match o.apply
    case ToAccount => o.(host := WriteAccount(o.host, c.m), apply := ToDropIn)
    case ToDropIn => o.(host := WriteDropIn(o.host, c.m), apply := ToLease, dropInStands := true)
    case ToLease =>
      o.(host := WriteLease(o.host, c.m, c.applyNow, c.dateWorks), apply := Written, leaseStands := true)
    case Written => o
  }

  function Move(c: Setting, o: Overlap): Overlap {
    match o.reap
    case Scan(todo) =>
      if todo == [] then o
      else
        var u, rest := todo[0], todo[1..];
        if u in o.host.leases && Due(o.host.leases[u], u, c.now, c.sessions)
        then o.(reap := AtDropIn(u, rest)) else o.(reap := Scan(rest))
    case AtDropIn(u, rest) =>
      o.(host := RemoveDropIn(o.host, u), reap := AtAccount(u, rest), dropInStands := o.dropInStands && u != c.m.user)
    case AtAccount(u, rest) => o.(host := RemoveAccount(o.host, u), reap := AtLease(u, rest))
    case AtLease(u, rest) =>
      o.(host := RemoveLease(o.host, u), reap := Scan(rest), leaseStands := o.leaseStands && u != c.m.user)
  }

  function Take(c: Setting, o: Overlap, t: Turn): Overlap { if t.LoginWrites? then Write(c, o) else Move(c, o) }

  function Schedule(c: Setting, o: Overlap, ts: seq<Turn>): Overlap
    decreases |ts|
  {
    if ts == [] then o else Take(c, Schedule(c, o, ts[..|ts| - 1]), ts[|ts| - 1])
  }

  function Begin(host: State, files: seq<User>): Overlap { Overlap(host, ToAccount, Scan(files), false, false) }

  predicate BothDone(o: Overlap) { o.apply.Written? && o.reap == Scan([]) }

  predicate BeingRemoved(o: Overlap, u: User) { (o.reap.AtAccount? || o.reap.AtLease?) && o.reap.u == u }

  /** For every other user the match holds but while that user is being removed; for the user of
      the manifest the files are what the login wrote, as far as they stand. */
  ghost predicate OverlapInv(c: Setting, o: Overlap) {
    && (forall u :: u != c.m.user ==>
          if BeingRemoved(o, u) then u !in o.host.dropIns else u in o.host.dropIns <==> SudoLeased(o.host, u))
    && (o.apply.ToLease? || o.apply.Written? ==> (c.m.user in o.host.dropIns <==> c.m.sudo && o.dropInStands))
    && (o.apply.Written? ==> (SudoLeased(o.host, c.m.user) <==> c.m.sudo && o.leaseStands))
  }

  lemma TakeKeepsInv(c: Setting, o: Overlap, t: Turn)
    requires OverlapInv(c, o)
    ensures OverlapInv(c, Take(c, o, t))
  {
    hide Due;
    forall u | u != c.m.user
      ensures var p := Take(c, o, t);
              if BeingRemoved(p, u) then u !in p.host.dropIns else u in p.host.dropIns <==> SudoLeased(p.host, u)
    {
    }
  }

  lemma {:induction false} ScheduleKeepsInv(c: Setting, host: State, files: seq<User>, ts: seq<Turn>)
    requires Match(host)
    ensures OverlapInv(c, Schedule(c, Begin(host, files), ts))
    decreases |ts|
  {
    hide Take;
    if ts == [] {
    } else {
      ScheduleKeepsInv(c, host, files, ts[..|ts| - 1]);
      TakeKeepsInv(c, Schedule(c, Begin(host, files), ts[..|ts| - 1]), ts[|ts| - 1]);
    }
  }

  /** However the two are interleaved: once both are done a user has a drop-in if and only if the
      lease has `sudo` - for all users if and only if the manifest has no `sudo`, or the login's
      drop-in and its lease both stand, or neither does. */
  lemma OverlapKeepsMatchIff(c: Setting, host: State, files: seq<User>, ts: seq<Turn>)
    requires Match(host) && BothDone(Schedule(c, Begin(host, files), ts))
    ensures var o := Schedule(c, Begin(host, files), ts);
            Match(o.host) <==> !c.m.sudo || (o.dropInStands <==> o.leaseStands)
  {
    hide Schedule;
    ScheduleKeepsInv(c, host, files, ts);
    var o := Schedule(c, Begin(host, files), ts);
    assert Match(o.host) ==> (c.m.user in o.host.dropIns <==> SudoLeased(o.host, c.m.user));
  }

  ghost predicate NotTaken(c: Setting, o: Overlap) {
    && (o.reap.Scan? || o.reap.u != c.m.user)
    && (c.m.user in o.host.leases ==> !Due(o.host.leases[c.m.user], c.m.user, c.now, c.sessions))
    && (o.apply.ToLease? || o.apply.Written? ==> o.dropInStands)
    && (o.apply.Written? ==> o.leaseStands)
  }

  lemma {:induction false} NeverTaken(c: Setting, host: State, files: seq<User>, ts: seq<Turn>)
    requires c.m.user !in DueUsers(host, c.now, c.sessions)
    requires c.dateWorks && c.applyNow + c.m.ttl > c.now
    ensures NotTaken(c, Schedule(c, Begin(host, files), ts))
    decreases |ts|
  {
    if ts == [] {
    } else {
      NeverTaken(c, host, files, ts[..|ts| - 1]);
    }
  }

  /** No schedule does harm to a user who is not due when the pass begins, if the new lease outlasts
      the pass. */
  lemma UserNotDueIsSafe(c: Setting, host: State, files: seq<User>, ts: seq<Turn>)
    requires Match(host) && BothDone(Schedule(c, Begin(host, files), ts))
    requires c.m.user !in DueUsers(host, c.now, c.sessions)
    requires c.dateWorks && c.applyNow + c.m.ttl > c.now
    ensures Match(Schedule(c, Begin(host, files), ts).host)
  {
    hide Schedule;
    NeverTaken(c, host, files, ts);
    OverlapKeepsMatchIff(c, host, files, ts);
  }

  // ---------------------------------------------------------------- a schedule that does harm

  lemma {:induction false} ScheduleOn(c: Setting, o: Overlap, ts: seq<Turn>, us: seq<Turn>)
    ensures Schedule(c, o, ts + us) == Schedule(c, Schedule(c, o, ts), us)
    decreases |us|
  {
    hide Take;
    if us == [] {
      assert ts + us == ts;
    } else {
      ScheduleOn(c, o, ts, us[..|us| - 1]);
      assert (ts + us)[..|ts + us| - 1] == ts + us[..|us| - 1];
    }
  }

  lemma OneTurn(c: Setting, o: Overlap, t: Turn)
    ensures Schedule(c, o, [t]) == Take(c, o, t)
  {
    assert [t][..0] == [];
  }

  /** The pass takes the next file out of the way: it looks and goes on, or removes the user. */
  function FileDone(c: Setting, o: Overlap): Overlap
    requires o.reap.Scan? && o.reap.todo != []
  {
    var u := o.reap.todo[0];
    if u in o.host.leases && Due(o.host.leases[u], u, c.now, c.sessions)
    then Move(c, Move(c, Move(c, Move(c, o)))) else Move(c, o)
  }

  lemma FileTurns(c: Setting, o: Overlap) returns (ts: seq<Turn>)
    requires o.reap.Scan? && o.reap.todo != []
    ensures Schedule(c, o, ts) == FileDone(c, o)
  {
    hide Move, Due, Schedule;
    OneTurn(c, o, PassMoves);
    var o1 := Move(c, o);
    ScheduleOn(c, o, [PassMoves], [PassMoves]);
    OneTurn(c, o1, PassMoves);
    var o2 := Move(c, o1);
    ScheduleOn(c, o, [PassMoves] + [PassMoves], [PassMoves]);
    OneTurn(c, o2, PassMoves);
    var o3 := Move(c, o2);
    ScheduleOn(c, o, [PassMoves] + [PassMoves] + [PassMoves], [PassMoves]);
    OneTurn(c, o3, PassMoves);
    var u := o.reap.todo[0];
    if u in o.host.leases && Due(o.host.leases[u], u, c.now, c.sessions) {
      ts := [PassMoves] + [PassMoves] + [PassMoves] + [PassMoves];
    } else {
      ts := [PassMoves];
    }
  }

  /** Another user's file says nothing of the login. */
  lemma OtherFile(c: Setting, o: Overlap)
    requires o.reap.Scan? && o.reap.todo != [] && o.reap.todo[0] != c.m.user
    ensures var p := FileDone(c, o);
            && p.reap == Scan(o.reap.todo[1..]) && p.apply == o.apply
            && p.dropInStands == o.dropInStands && p.leaseStands == o.leaseStands
            && (c.m.user in p.host.leases <==> c.m.user in o.host.leases)
            && (c.m.user in o.host.leases ==> p.host.leases[c.m.user] == o.host.leases[c.m.user])
  {
    hide Due;
  }

  /** The pass comes to the user of the manifest and finds the lease due. */
  lemma {:induction false} PassArrives(c: Setting, o: Overlap) returns (ts: seq<Turn>, rest: seq<User>)
    requires o.reap.Scan? && c.m.user in o.reap.todo && c.m.user in o.host.leases
    requires Due(o.host.leases[c.m.user], c.m.user, c.now, c.sessions)
    ensures var p := Schedule(c, o, ts);
            && p.reap == AtDropIn(c.m.user, rest) && p.apply == o.apply
            && p.dropInStands == o.dropInStands && p.leaseStands == o.leaseStands
    decreases |o.reap.todo|
  {
    hide Due, Schedule;
    if o.reap.todo[0] == c.m.user {
      ts, rest := [PassMoves], o.reap.todo[1..];
      OneTurn(c, o, PassMoves);
    } else {
      OtherFile(c, o);
      var first := FileTurns(c, o);
      hide FileDone;
      var p := FileDone(c, o);
      var onward;
      onward, rest := PassArrives(c, p);
      ts := first + onward;
      ScheduleOn(c, o, first, onward);
    }
  }

  /** The pass comes to its end; a user without a lease is left alone. */
  lemma {:induction false} PassEnds(c: Setting, o: Overlap) returns (ts: seq<Turn>)
    requires o.reap.Scan? && c.m.user !in o.host.leases
    ensures var p := Schedule(c, o, ts);
            && p.reap == Scan([]) && p.apply == o.apply
            && p.dropInStands == o.dropInStands && p.leaseStands == o.leaseStands
    decreases |o.reap.todo|
  {
    hide Due;
    if o.reap.todo == [] {
      ts := [];
    } else {
      hide Schedule;
      var first := FileTurns(c, o);
      if o.reap.todo[0] != c.m.user {
        OtherFile(c, o);
      }
      var p := FileDone(c, o);
      assert p.reap == Scan(o.reap.todo[1..]) && c.m.user !in p.host.leases;
      var rest := PassEnds(c, p);
      ts := first + rest;
      ScheduleOn(c, o, first, rest);
    }
  }

  /** The turns that do it, from where the pass is about to remove the user's drop-in: the login
      writes its own after that, and its lease before the pass removes the lease. */
  const LEAKS := [PassMoves, LoginWrites, LoginWrites, PassMoves, LoginWrites, PassMoves]

  /** The states of a schedule, turn by turn. */
  lemma {:induction false} Replay(c: Setting, ts: seq<Turn>, os: seq<Overlap>, n: nat)
    requires n <= |ts| < |os| && forall i :: 0 <= i < n ==> os[i + 1] == Take(c, os[i], ts[i])
    ensures Schedule(c, os[0], ts[..n]) == os[n]
  {
    hide Take;
    if n == 0 {
    } else {
      Replay(c, ts, os, n - 1);
      assert ts[..n][..n - 1] == ts[..n - 1];
      assert os[n - 1 + 1] == Take(c, os[n - 1], ts[n - 1]);
    }
  }

  lemma Leaks(c: Setting, o: Overlap, rest: seq<User>)
    requires o.reap == AtDropIn(c.m.user, rest) && o.apply.ToAccount?
    ensures var p := Schedule(c, o, LEAKS);
            && p.reap == Scan(rest) && p.apply.Written? && p.dropInStands && !p.leaseStands
            && c.m.user !in p.host.leases
  {
    hide Due, WriteAccount, WriteDropIn, WriteLease, RemoveDropIn, RemoveAccount, Schedule;
    var o1 := Take(c, o, PassMoves);
    var o2 := Take(c, o1, LoginWrites);
    var o3 := Take(c, o2, LoginWrites);
    var o4 := Take(c, o3, PassMoves);
    var o5 := Take(c, o4, LoginWrites);
    var o6 := Take(c, o5, PassMoves);
    assert o6.reap == Scan(rest) && o6.dropInStands && !o6.leaseStands;
    hide Take;
    Replay(c, LEAKS, [o, o1, o2, o3, o4, o5, o6], 6);
    assert LEAKS[..6] == LEAKS;
  }

  /** On every host on which the user of a `sudo` manifest is due, whatever else the pass lists,
      some schedule leaves a drop-in without a lease. */
  lemma OverlapLeavesADropIn(c: Setting, host: State, files: seq<User>) returns (ts: seq<Turn>)
    requires Match(host) && Lists(files, host) && c.m.sudo && c.m.user in DueUsers(host, c.now, c.sessions)
    ensures var o := Schedule(c, Begin(host, files), ts);
            BothDone(o) && o.dropInStands && !o.leaseStands && !Match(o.host)
  {
    hide Schedule;
    var o := Begin(host, files);
    var first, rest := PassArrives(c, o);
    hide Due;
    Leaks(c, Schedule(c, o, first), rest);
    ScheduleOn(c, o, first, LEAKS);
    var last := PassEnds(c, Schedule(c, o, first + LEAKS));
    ScheduleOn(c, o, first + LEAKS, last);
    ts := first + LEAKS + last;
    OverlapKeepsMatchIff(c, host, files, ts);
  }

  /** The match after any schedule of the login and the pass. */
  ghost predicate Harmless(c: Setting, host: State, files: seq<User>, ts: seq<Turn>) {
    BothDone(Schedule(c, Begin(host, files), ts)) ==> Match(Schedule(c, Begin(host, files), ts).host)
  }

  /** Exactly when a login may overlap a pass: for a new lease that outlasts the pass, every
      schedule keeps the match if and only if the manifest has no `sudo`, or its user is not due
      when the pass begins. */
  lemma EveryScheduleHarmlessIff(c: Setting, host: State, files: seq<User>)
    requires Match(host) && Lists(files, host) && c.dateWorks && c.applyNow + c.m.ttl > c.now
    ensures (forall ts :: Harmless(c, host, files, ts))
            <==> !c.m.sudo || c.m.user !in DueUsers(host, c.now, c.sessions)
  {
    hide Schedule, DueUsers;
    if c.m.sudo && c.m.user in DueUsers(host, c.now, c.sessions) {
      var ts := OverlapLeavesADropIn(c, host, files);
      assert !Harmless(c, host, files, ts);
    } else {
      forall ts ensures Harmless(c, host, files, ts) {
        if BothDone(Schedule(c, Begin(host, files), ts)) {
          OverlapKeepsMatchIff(c, host, files, ts);
          if c.m.sudo {
            UserNotDueIsSafe(c, host, files, ts);
          }
        }
      }
    }
  }
}
