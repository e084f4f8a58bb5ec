/** Just-in-time accounts on a host: `apply_manifest` gives a user an account, a sudoers drop-in
    and a lease, `reap_expired_leases` takes them away. */
module JitLease {
  import opened Wrappers

  type User = int

  /** `expiresAt` is `None` when no `date` could format it: the file then says "unknown". */
  datatype Lease = Lease(expiresAt: Option<int>, sudo: bool, hardCutoff: bool)

  datatype Manifest = Manifest(user: User, sudo: bool, hardCutoff: bool, ttl: nat)

  /** What `loginctl` says of a user. */
  datatype Session = NoRecord | Active | Lingering | OtherState

  /** The files in `/etc/sudoers.d` and in the lease directory, by the user in their name. */
  datatype State = State(users: set<User>, dropIns: set<User>, leases: map<User, Lease>)

  // ---------------------------------------------------------------- apply_manifest

  /** Which of the three writes take effect. Their failures go unseen (`set -e` is off inside the
      condition that calls the function), and the process may die before any of them. */
  datatype Writes = Writes(account: bool, dropIn: bool, lease: bool)

  const COMPLETE := Writes(true, true, true)

  function WriteAccount(s: State, m: Manifest): State { s.(users := s.users + {m.user}) }

  function WriteDropIn(s: State, m: Manifest): State {
    s.(dropIns := if m.sudo then s.dropIns + {m.user} else s.dropIns - {m.user})
  }

  function WriteLease(s: State, m: Manifest, now: int, dateWorks: bool): State {
    s.(leases := s.leases[m.user := Lease(if dateWorks then Some(now + m.ttl) else None, m.sudo, m.hardCutoff)])
  }

  function ApplyManifest(s: State, m: Manifest, now: int, dateWorks: bool, w: Writes): State {
    var t := if w.account then WriteAccount(s, m) else s;
    var u := if w.dropIn then WriteDropIn(t, m) else t;
    if w.lease then WriteLease(u, m, now, dateWorks) else u
  }

  // ---------------------------------------------------------------- reap_expired_leases

  /** An expiry that cannot be parsed reads as the epoch. */
  function ExpEpoch(l: Lease): int { match l.expiresAt case Some(t) => t case None => 0 }

  function SessionOf(sessions: map<User, Session>, u: User): Session {
    if u in sessions then sessions[u] else NoRecord
  }

  predicate HasSession(sessions: map<User, Session>, u: User) {
    SessionOf(sessions, u).Active? || SessionOf(sessions, u).Lingering?
  }

  predicate Due(l: Lease, u: User, now: int, sessions: map<User, Session>) {
    now >= ExpEpoch(l) && (!HasSession(sessions, u) || l.hardCutoff)
  }

  function RemoveDropIn(s: State, u: User): State { s.(dropIns := s.dropIns - {u}) }

  function RemoveAccount(s: State, u: User): State { s.(users := s.users - {u}) }

  function RemoveLease(s: State, u: User): State { s.(leases := s.leases - {u}) }

  /** Which of the three removals take effect: a failing `rm` of the drop-in and a failing
      `userdel` are swallowed, and so is a failing `rm` of the lease file during a login. */
  datatype Removal = Removal(dropIn: bool, account: bool, lease: bool)

  const REMOVED := Removal(true, true, true)

  function Remove(s: State, u: User, r: Removal): State {
    var t := if r.dropIn then RemoveDropIn(s, u) else s;
    var v := if r.account then RemoveAccount(t, u) else t;
    if r.lease then RemoveLease(v, u) else v
  }

  /** One turn of the loop over the lease files. */
  function ReapOne(s: State, u: User, now: int, sessions: map<User, Session>, how: User -> Removal): State {
    if u !in s.leases || !Due(s.leases[u], u, now, sessions) then s else Remove(s, u, how(u))
  }

  function ReapFiles(s: State, files: seq<User>, now: int, sessions: map<User, Session>, how: User -> Removal): State
    decreases |files|
  {
    if files == [] then s
    else ReapOne(ReapFiles(s, files[..|files| - 1], now, sessions, how), files[|files| - 1], now, sessions, how)
  }

  /** The glob lists the lease files that exist, in whatever order. */
  ghost predicate Lists(files: seq<User>, s: State) {
    forall u :: u in files <==> u in s.leases
  }

  /** The users a pass removes, and the state without them. */
  function DueUsers(s: State, now: int, sessions: map<User, Session>): set<User> {
    set u | u in s.leases && Due(s.leases[u], u, now, sessions)
  }

  function Without(s: State, gone: set<User>): State {
    State(s.users - gone, s.dropIns - gone, s.leases - gone)
  }

  /** What is left when the removals for the users of `gone` take effect as they do. */
  function Left(s: State, gone: set<User>, how: User -> Removal): State {
    State(s.users - (set u | u in gone && how(u).account),
          s.dropIns - (set u | u in gone && how(u).dropIn),
          s.leases - (set u | u in gone && how(u).lease))
  }

  lemma {:induction false} ReapFilesRemoves(
      s: State, files: seq<User>, now: int, sessions: map<User, Session>, how: User -> Removal)
    ensures ReapFiles(s, files, now, sessions, how)
            == Left(s, (set u | u in DueUsers(s, now, sessions) && u in files), how)
    decreases |files|
  {
    var gone := set u | u in DueUsers(s, now, sessions) && u in files;
    if files == [] {
      assert gone == {};
      NothingGone(s, how);
    } else {
      var n := |files| - 1;
      ReapFilesRemoves(s, files[..n], now, sessions, how);
      var before := set u | u in DueUsers(s, now, sessions) && u in files[..n];
      assert files == files[..n] + [files[n]];
      assert gone == if files[n] in DueUsers(s, now, sessions) then before + {files[n]} else before;
      OneMoreGone(s, before, files[n], now, sessions, how);
    }
  }

  lemma NothingGone(s: State, how: User -> Removal)
    ensures Left(s, {}, how) == s && Without(s, {}) == s
  {
    assert Left(s, {}, how).leases == s.leases && Without(s, {}).leases == s.leases;
  }

  lemma OneMoreGone(
      s: State, gone: set<User>, u: User, now: int, sessions: map<User, Session>, how: User -> Removal)
    requires gone <= DueUsers(s, now, sessions)
    ensures ReapOne(Left(s, gone, how), u, now, sessions, how)
            == Left(s, if u in DueUsers(s, now, sessions) then gone + {u} else gone, how)
  {
    if u in DueUsers(s, now, sessions) {
      var t, v := ReapOne(Left(s, gone, how), u, now, sessions, how), Left(s, gone + {u}, how);
      assert t.leases == v.leases;
      assert t.users == v.users && t.dropIns == v.dropIns;
    }
  }

  ghost predicate AllRemoved(files: seq<User>, how: User -> Removal) { forall u <- files :: how(u) == REMOVED }

  /** A pass at `now` in which nothing fails removes exactly the users whose lease is expired and
      who are idle or on a hard cutoff - drop-in, account and lease - and touches nobody else, in
      whatever order the files come. */
  lemma ReapIsExact(s: State, files: seq<User>, now: int, sessions: map<User, Session>, how: User -> Removal)
    requires Lists(files, s) && AllRemoved(files, how)
    ensures ReapFiles(s, files, now, sessions, how) == Without(s, DueUsers(s, now, sessions))
  {
    ReapFilesRemoves(s, files, now, sessions, how);
    var due := DueUsers(s, now, sessions);
    assert (set u | u in due && u in files) == due;
    assert Left(s, due, how).leases == Without(s, due).leases;
  }

  /** With removals that fail and are swallowed, a pass keeps the match if and only if for every
      due user with a drop-in both that and the lease are gone, or neither. */
  lemma ReapKeepsMatchIff(s: State, files: seq<User>, now: int, sessions: map<User, Session>, how: User -> Removal)
    requires Match(s) && Lists(files, s)
    ensures Match(ReapFiles(s, files, now, sessions, how))
            <==> forall u <- DueUsers(s, now, sessions) :: u in s.dropIns ==> how(u).dropIn == how(u).lease
  {
    ReapFilesRemoves(s, files, now, sessions, how);
    var due := DueUsers(s, now, sessions);
    assert (set u | u in due && u in files) == due;
    var t := Left(s, due, how);
    forall u
      ensures (u in t.dropIns <==> SudoLeased(t, u))
              <==> !(u in due && u in s.dropIns) || how(u).dropIn == how(u).lease
    {
      LeftFor(s, due, how, u);
    }
  }

  lemma LeftFor(s: State, gone: set<User>, how: User -> Removal, u: User)
    ensures var t := Left(s, gone, how);
            && (u in t.dropIns <==> u in s.dropIns && !(u in gone && how(u).dropIn))
            && (SudoLeased(t, u) <==> SudoLeased(s, u) && !(u in gone && how(u).lease))
  {
  }

  /** A second pass at the same time, with unchanged sessions, changes nothing. */
  lemma ReapTwice(
      s: State, files: seq<User>, again: seq<User>, now: int, sessions: map<User, Session>, how: User -> Removal)
    requires Lists(files, s) && AllRemoved(files, how) && AllRemoved(again, how)
    requires Lists(again, ReapFiles(s, files, now, sessions, how))
    ensures var t := ReapFiles(s, files, now, sessions, how); ReapFiles(t, again, now, sessions, how) == t
  {
    ReapIsExact(s, files, now, sessions, how);
    var t := ReapFiles(s, files, now, sessions, how);
    ReapIsExact(t, again, now, sessions, how);
    assert DueUsers(t, now, sessions) == {};
    NothingGone(t, how);
  }

  // ---------------------------------------------------------------- runs of completed steps

  datatype Event =
    | Applied(m: Manifest, now: int, dateWorks: bool)
    | Reaped(now: int, sessions: map<User, Session>)

  function Apply(s: State, e: Event): State {
    match e
    case Applied(m, now, dateWorks) => ApplyManifest(s, m, now, dateWorks, COMPLETE)
    case Reaped(now, sessions) => Without(s, DueUsers(s, now, sessions))
  }

  function Run(s: State, es: seq<Event>): State
    decreases |es|
  {
    if es == [] then s else Apply(Run(s, es[..|es| - 1]), es[|es| - 1])
  }

  predicate SudoLeased(s: State, u: User) { u in s.leases && s.leases[u].sudo }

  /** The drop-in of a user exists iff the user's lease has `sudo`. */
  ghost predicate Match(s: State) { forall u :: u in s.dropIns <==> SudoLeased(s, u) }

  ghost predicate Housed(s: State) { forall u :: u in s.leases ==> u in s.users }

  lemma {:induction false} RunKeepsMatch(s: State, es: seq<Event>)
    requires Match(s) && Housed(s)
    ensures Match(Run(s, es)) && Housed(Run(s, es))
    decreases |es|
  {
    if es == [] {
    } else {
      RunKeepsMatch(s, es[..|es| - 1]);
    }
  }

  /** So after a pass a user has a sudoers drop-in only on a `sudo` lease that is not yet expired,
      or whose user has a session that the lease lets finish. */
  lemma NoDropInOutlivesItsLease(
      s: State, es: seq<Event>, now: int, sessions: map<User, Session>, u: User)
    requires Match(s) && Housed(s)
    ensures var t := Apply(Run(s, es), Reaped(now, sessions));
            u in t.dropIns <==> SudoLeased(Run(s, es), u)
                                && (now < ExpEpoch(Run(s, es).leases[u])
                                    || (HasSession(sessions, u) && !Run(s, es).leases[u].hardCutoff))
  {
    RunKeepsMatch(s, es);
  }

  predicate Grants(e: Event, u: User) { e.Applied? && e.m.user == u }

  /** An account that has no lease and gets none is never removed. */
  lemma {:induction false} UnleasedAccountsStay(s: State, es: seq<Event>, u: User)
    requires u !in s.leases && forall i :: 0 <= i < |es| ==> !Grants(es[i], u)
    ensures var t := Run(s, es);
            u !in t.leases && (u in t.users <==> u in s.users) && (u in t.dropIns <==> u in s.dropIns)
    decreases |es|
  {
    if es == [] {
    } else {
      UnleasedAccountsStay(s, es[..|es| - 1], u);
      assert !Grants(es[|es| - 1], u);
    }
  }

  // ---------------------------------------------------------------- how long a lease lasts

  /** What `loginctl` says of the user does not keep a pass from removing the account. */
  predicate Idle(sessions: map<User, Session>, u: User) {
    u !in sessions || sessions[u].NoRecord? || sessions[u].OtherState?
  }

  /** Without a new manifest a user's lease is the one it was, or it is gone with account and drop-in. */
  lemma {:induction false} LeaseStaysOrGoes(s: State, es: seq<Event>, u: User)
    requires u in s.leases && forall i :: 0 <= i < |es| ==> !Grants(es[i], u)
    ensures var t := Run(s, es);
            if u in t.leases then
              t.leases[u] == s.leases[u] && (u in t.users <==> u in s.users) && (u in t.dropIns <==> u in s.dropIns)
            else u !in t.users && u !in t.dropIns
    decreases |es|
  {
    if es == [] {
    } else {
      LeaseStaysOrGoes(s, es[..|es| - 1], u);
      assert !Grants(es[|es| - 1], u);
    }
  }

  /** When a granted lease is up: as long as it is the last one, its user is due at `later` if and
      only if the seconds of the manifest have passed since it was applied - any time will do when
      no `date` worked - and the user is idle or the manifest cuts hard. */
  lemma GrantedLeaseIsDueIff(
      s: State, m: Manifest, now: int, dateWorks: bool, es: seq<Event>, later: int, sessions: map<User, Session>)
    requires forall i :: 0 <= i < |es| ==> !Grants(es[i], m.user)
    requires m.user in Run(Apply(s, Applied(m, now, dateWorks)), es).leases
    ensures m.user in DueUsers(Run(Apply(s, Applied(m, now, dateWorks)), es), later, sessions)
            <==> later >= (if dateWorks then now + m.ttl else 0) && (Idle(sessions, m.user) || m.hardCutoff)
  {
    hide Run;
    LeaseStaysOrGoes(Apply(s, Applied(m, now, dateWorks)), es, m.user);
  }

  /** So a pass that comes when the time is up leaves an idle user neither account, drop-in nor
      lease, whatever has happened since. */
  lemma NothingOutlivesTheTtl(
      s: State, m: Manifest, now: int, es: seq<Event>, later: int, sessions: map<User, Session>)
    requires forall i :: 0 <= i < |es| ==> !Grants(es[i], m.user)
    requires later >= now + m.ttl && (Idle(sessions, m.user) || m.hardCutoff)
    ensures var t := Apply(Run(Apply(s, Applied(m, now, true)), es), Reaped(later, sessions));
            m.user !in t.users && m.user !in t.dropIns && m.user !in t.leases
  {
    hide Run;
    var granted := Apply(s, Applied(m, now, true));
    LeaseStaysOrGoes(granted, es, m.user);
    if m.user in Run(granted, es).leases {
      GrantedLeaseIsDueIff(s, m, now, true, es, later, sessions);
    }
  }

  /** And passes that come before leave all of it: the account, the lease, and the drop-in if and
      only if the manifest has `sudo`. */
  lemma {:induction false} LeaseLastsItsTtl(s: State, m: Manifest, now: int, es: seq<Event>)
    requires forall i :: 0 <= i < |es| ==> !Grants(es[i], m.user)
    requires forall i :: 0 <= i < |es| && es[i].Reaped? ==> es[i].now < now + m.ttl
    ensures var t := Run(Apply(s, Applied(m, now, true)), es);
            && m.user in t.leases && m.user in t.users && (m.user in t.dropIns <==> m.sudo)
            && t.leases[m.user] == Lease(Some(now + m.ttl), m.sudo, m.hardCutoff)
    decreases |es|
  {
    if es == [] {
    } else {
      LeaseLastsItsTtl(s, m, now, es[..|es| - 1]);
      assert !Grants(es[|es| - 1], m.user);
    }
  }

  // ---------------------------------------------------------------- steps that do not complete

  /** An apply whose writes may fail keeps the match if and only if the drop-in and the lease were
      both written, or neither, or the manifest's `sudo` is what the user had. */
  lemma ApplyKeepsMatchIff(s: State, m: Manifest, now: int, dateWorks: bool, w: Writes)
    requires Match(s)
    ensures Match(ApplyManifest(s, m, now, dateWorks, w))
            <==> w.dropIn == w.lease || m.sudo == (m.user in s.dropIns)
  {
    var t := ApplyManifest(s, m, now, dateWorks, w);
    if w.dropIn != w.lease && m.sudo != (m.user in s.dropIns) {
      assert m.user in t.dropIns <==> !SudoLeased(t, m.user);
    }
  }

  /** Once such an apply has left a drop-in without a lease, no later pass and no other user's
      manifest ever removes it; only a new manifest for the same user can. */
  lemma OrphanedDropInStays(s: State, m: Manifest, now: int, es: seq<Event>)
    requires m.sudo && m.user !in s.leases
    requires forall i :: 0 <= i < |es| ==> !Grants(es[i], m.user)
    ensures var t := Run(ApplyManifest(s, m, now, true, Writes(true, true, false)), es);
            m.user in t.dropIns && m.user in t.users && m.user !in t.leases
  {
    UnleasedAccountsStay(ApplyManifest(s, m, now, true, Writes(true, true, false)), es, m.user);
  }

  /** So does one left by a pass: where the drop-in could not be removed but the lease was. */
  lemma UnremovedDropInStays(
      s: State, files: seq<User>, now: int, sessions: map<User, Session>, how: User -> Removal, u: User, es: seq<Event>)
    requires Lists(files, s) && u in DueUsers(s, now, sessions) && u in s.dropIns
    requires !how(u).dropIn && how(u).lease && forall i :: 0 <= i < |es| ==> !Grants(es[i], u)
    ensures var t := Run(ReapFiles(s, files, now, sessions, how), es); u in t.dropIns && u !in t.leases
  {
    ReapFilesRemoves(s, files, now, sessions, how);
    UnleasedAccountsStay(ReapFiles(s, files, now, sessions, how), es, u);
  }

  /** A pass that stops after the files `done`, or while it removes the user of one more file but
      before that lease is gone (`accountToo`: after the account), is made good by the next pass:
      if that one is later and no session has appeared, the state is what the later pass alone
      would have left. */
  lemma StoppedReapHeals(
      s: State, done: seq<User>, u: User, accountToo: bool, files: seq<User>, how: User -> Removal,
      now: int, sessions: map<User, Session>, later: int, sessionsLater: map<User, Session>)
    requires now <= later && (forall v :: HasSession(sessionsLater, v) ==> HasSession(sessions, v))
    requires u in DueUsers(s, now, sessions) && AllRemoved(done, how) && AllRemoved(files, how)
    ensures var t := RemoveDropIn(ReapFiles(s, done, now, sessions, how), u);
            var stopped := if accountToo then RemoveAccount(t, u) else t;
            Lists(files, stopped) ==>
              ReapFiles(stopped, files, later, sessionsLater, how) == Without(s, DueUsers(s, later, sessionsLater))
  {
    hide ReapFiles, Due;
    ReapFilesRemoves(s, done, now, sessions, how);
    var gone := set v | v in DueUsers(s, now, sessions) && v in done;
    assert Left(s, gone, how) == Without(s, gone) by {
      assert (set v | v in gone && how(v).lease) == gone;
      assert (set v | v in gone && how(v).dropIn) == gone;
      assert (set v | v in gone && how(v).account) == gone;
    }
    var t := RemoveDropIn(Without(s, gone), u);
    var stopped := if accountToo then RemoveAccount(t, u) else t;
    if Lists(files, stopped) {
      ReapIsExact(stopped, files, later, sessionsLater, how);
      DueStaysDue(s, now, sessions, later, sessionsLater);
      var due := DueUsers(s, later, sessionsLater);
      assert DueUsers(stopped, later, sessionsLater) == due - gone;
      assert stopped.leases - (due - gone) == s.leases - due;
    }
  }

  lemma DueStaysDue(
      s: State, now: int, sessions: map<User, Session>, later: int, sessionsLater: map<User, Session>)
    requires now <= later && (forall v :: HasSession(sessionsLater, v) ==> HasSession(sessions, v))
    ensures DueUsers(s, now, sessions) <= DueUsers(s, later, sessionsLater)
  {
  }

  // ---------------------------------------------------------------- the script

  class Host {
    var users: set<User>
    var dropIns: set<User>
    var leases: map<User, Lease>

    ghost function Contents(): State
      reads this
    {
      State(users, dropIns, leases)
    }

    constructor (accounts: set<User>)
      ensures Contents() == State(accounts, {}, map[]) && Match(Contents()) && Housed(Contents())
    {
      users, dropIns, leases := accounts, {}, map[];
    }

    method Provision(m: Manifest, now: int, dateWorks: bool, w: Writes)
      modifies this
      ensures Contents() == ApplyManifest(old(Contents()), m, now, dateWorks, w)
    {
      if m.user !in users && w.account {
        users := users + {m.user};
      }
      assert w.account ==> users == old(users) + {m.user};
      if w.dropIn {
        if m.sudo {
          dropIns := dropIns + {m.user};
        } else if m.user in dropIns {
          dropIns := dropIns - {m.user};
        }
      }
      if w.lease {
        var expiresAt := None;
        if dateWorks {
          expiresAt := Some(now + m.ttl);
        }
        leases := leases[m.user := Lease(expiresAt, m.sudo, m.hardCutoff)];
      }
    }

    /** `files` is what the glob expands to when the loop starts. */
    method Reap(files: seq<User>, now: int, sessions: map<User, Session>, how: User -> Removal)
      requires Lists(files, Contents())
      modifies this
      ensures Contents() == Left(old(Contents()), DueUsers(old(Contents()), now, sessions), how)
      ensures AllRemoved(files, how) ==>
                Contents() == Without(old(Contents()), DueUsers(old(Contents()), now, sessions))
    {
      hide Left, Without, AllRemoved;
      ghost var was := Contents();
      var i := 0;
      while i < |files|
        invariant 0 <= i <= |files|
        invariant Contents() == ReapFiles(was, files[..i], now, sessions, how)
      {
        var u := files[i];
        assert files[..i + 1][..i] == files[..i];
        i := i + 1;
        if u !in leases {
          continue;
        }
        var expEpoch := ExpEpoch(leases[u]);
        if now < expEpoch {
          continue;
        }
        var hasSession := HasSession(sessions, u);
        if hasSession && !leases[u].hardCutoff {
          continue;
        }
        if u in dropIns && how(u).dropIn {
          dropIns := dropIns - {u};
        }
        if u in users && how(u).account {
          users := users - {u};
        }
        if how(u).lease {
          leases := leases - {u};
        }
        assert Contents() == ReapOne(ReapFiles(was, files[..i - 1], now, sessions, how), u, now, sessions, how);
      }
      assert files[..i] == files;
      ReapFilesRemoves(was, files, now, sessions, how);
      assert (set u | u in DueUsers(was, now, sessions) && u in files) == DueUsers(was, now, sessions);
      if AllRemoved(files, how) {
        ReapIsExact(was, files, now, sessions, how);
      }
    }
  }
}
