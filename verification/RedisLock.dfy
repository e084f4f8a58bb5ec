/** The lock every repeatable job takes: `SET key 1 PX ttl NX` ... `DEL key`, without an owner
    token. `failOpen` tells the one copy that runs unlocked when Redis fails from the three that
    skip the pass. */
module RedisLock {
  import opened Wrappers

  type Pid = int

  /** `deadline` is when the caller's own TTL elapses; `Releasing` has returned from the guarded
      function and its `DEL` is under way; `Unlocked` runs the function without the lock. */
  datatype Phase = Out | Inside(deadline: int) | Releasing(deadline: int) | Unlocked

  /** `overran`: some caller was still inside, or its `DEL` still under way, when its own TTL
      elapsed. `unguarded`: some caller went in without the lock. Both are history. */
  datatype State = State(
    ttl: int, failOpen: bool, now: int, key: Option<int>, phases: map<Pid, Phase>, overran: bool, unguarded: bool)

  datatype Event =
    | TryLock(p: Pid)
    | RedisFails(p: Pid)
    | Return(p: Pid)
    | DelLands(p: Pid)
    | DelFails(p: Pid)
    | Crash(p: Pid)
    | Tick(elapsed: nat)

  function PhaseOf(s: State, p: Pid): Phase { if p in s.phases then s.phases[p] else Out }

  predicate KeyFree(s: State) { s.key.None? || s.key.value <= s.now }

  predicate InSection(ph: Phase) { ph.Inside? || ph.Unlocked? }

  predicate Holding(ph: Phase) { ph.Inside? || ph.Releasing? }

  function Apply(s: State, e: Event): State {
    match e
    case TryLock(p) =>
      if PhaseOf(s, p).Out? && KeyFree(s)
      then s.(key := Some(s.now + s.ttl), phases := s.phases[p := Inside(s.now + s.ttl)])
      else s
    case RedisFails(p) =>
      if PhaseOf(s, p).Out? && s.failOpen then s.(phases := s.phases[p := Unlocked], unguarded := true) else s
    case Return(p) =>
      (match PhaseOf(s, p)
       case Inside(d) => s.(phases := s.phases[p := Releasing(d)])
       case Unlocked => s.(phases := s.phases[p := Out])
       case _ => s)
    case DelLands(p) =>
      if PhaseOf(s, p).Releasing? then s.(key := None, phases := s.phases[p := Out]) else s
    case DelFails(p) =>
      if PhaseOf(s, p).Releasing? then s.(phases := s.phases[p := Out]) else s
    case Crash(p) => s.(phases := s.phases[p := Out])
    case Tick(elapsed) =>
      var late := exists p :: p in s.phases && Holding(s.phases[p]) && s.phases[p].deadline <= s.now + elapsed;
      s.(now := s.now + elapsed, overran := s.overran || late)
  }

  function Run(s: State, es: seq<Event>): State
    decreases |es|
  {
    if es == [] then s else Apply(Run(s, es[..|es| - 1]), es[|es| - 1])
  }

  predicate Initial(s: State) {
    s.ttl > 0 && s.key.None? && s.phases == map[] && !s.overran && !s.unguarded
  }

  /** At most one caller is inside the guarded function. */
  ghost predicate Exclusive(s: State) {
    forall p, q | p in s.phases && q in s.phases :: InSection(s.phases[p]) && InSection(s.phases[q]) ==> p == q
  }

  ghost predicate Inv(s: State) {
    && s.ttl > 0
    && (!s.failOpen ==> !s.unguarded)
    && (!s.overran && !s.unguarded ==>
          && (forall p | p in s.phases :: !s.phases[p].Unlocked?)
          && (forall p | p in s.phases :: Holding(s.phases[p]) ==>
                s.key == Some(s.phases[p].deadline) && s.now < s.phases[p].deadline)
          && (forall p, q | p in s.phases && q in s.phases :: Holding(s.phases[p]) && Holding(s.phases[q]) ==> p == q))
  }

  lemma ApplyKeepsInv(s: State, e: Event)
    requires Inv(s)
    ensures Inv(Apply(s, e))
    ensures s.overran ==> Apply(s, e).overran
    ensures s.unguarded ==> Apply(s, e).unguarded
    ensures Apply(s, e).failOpen == s.failOpen
  {
  }

  /** Exclusion, in every interleaving and for every advance of the clock: two callers are inside
      together only after some caller's section or `DEL` outlived its own TTL, or after a caller
      went in without the lock, which only the copy that fails open ever does. */
  lemma {:induction false} Exclusion(s: State, es: seq<Event>)
    requires Initial(s)
    ensures var s' := Run(s, es);
            && Inv(s')
            && s'.failOpen == s.failOpen
            && (!s'.overran && !s'.unguarded ==> Exclusive(s'))
            && (!s.failOpen ==> !s'.unguarded)
    decreases |es|
  {
    if es == [] {
    } else {
      Exclusion(s, es[..|es| - 1]);
      ApplyKeepsInv(Run(s, es[..|es| - 1]), es[|es| - 1]);
    }
  }

  lemma RunThen(s: State, es: seq<Event>, e: Event)
    ensures Run(s, es + [e]) == Apply(Run(s, es), e)
  {
    assert (es + [e])[..|es + [e]| - 1] == es;
  }

  /** The assumption on the `DEL` is needed: caller 1 returned in time, but its late `DEL` removes
      the key of caller 2, and caller 3 goes in beside it - neither 2 nor 3 has overrun. */
  lemma LateDelBreaksExclusion(s: State)
    requires Initial(s) && !s.failOpen
    ensures var s' := Run(s, [TryLock(1), Return(1), Tick(s.ttl), TryLock(2), DelLands(1), TryLock(3)]);
            && PhaseOf(s', 2).Inside? && PhaseOf(s', 3).Inside?
            && s'.now < PhaseOf(s', 2).deadline && s'.now < PhaseOf(s', 3).deadline
            && !Exclusive(s')
  {
    hide Run, Exclusive;
    var three := [TryLock(1), Return(1), Tick(s.ttl)];
    ReturnedInTime(s);
    RunThen(s, three, TryLock(2));
    RunThen(s, three + [TryLock(2)], DelLands(1));
    RunThen(s, three + [TryLock(2)] + [DelLands(1)], TryLock(3));
    assert three + [TryLock(2)] + [DelLands(1)] + [TryLock(3)]
      == [TryLock(1), Return(1), Tick(s.ttl), TryLock(2), DelLands(1), TryLock(3)];
    StrayDel(Run(s, three));
  }

  lemma ReturnedInTime(s: State)
    requires Initial(s)
    ensures var s' := Run(s, [TryLock(1), Return(1), Tick(s.ttl)]);
            s'.ttl == s.ttl && KeyFree(s') && PhaseOf(s', 1).Releasing? && PhaseOf(s', 2).Out? && PhaseOf(s', 3).Out?
  {
    RunThen(s, [], TryLock(1));
    RunThen(s, [TryLock(1)], Return(1));
    RunThen(s, [TryLock(1), Return(1)], Tick(s.ttl));
    assert [] + [TryLock(1)] == [TryLock(1)];
    assert [TryLock(1)] + [Return(1)] == [TryLock(1), Return(1)];
    assert [TryLock(1), Return(1)] + [Tick(s.ttl)] == [TryLock(1), Return(1), Tick(s.ttl)];
    hide Run;
  }

  lemma StrayDel(s: State)
    requires s.ttl > 0 && KeyFree(s) && PhaseOf(s, 1).Releasing? && PhaseOf(s, 2).Out? && PhaseOf(s, 3).Out?
    ensures var s' := Apply(Apply(Apply(s, TryLock(2)), DelLands(1)), TryLock(3));
            && PhaseOf(s', 2).Inside? && PhaseOf(s', 3).Inside?
            && s'.now < PhaseOf(s', 2).deadline && s'.now < PhaseOf(s', 3).deadline
            && !Exclusive(s')
  {
    var s' := Apply(Apply(Apply(s, TryLock(2)), DelLands(1)), TryLock(3));
    assert 2 in s'.phases && 3 in s'.phases;
  }

  /** The copy that fails open gives up exclusion exactly there: with no overrun at all, two
      callers that Redis turned away run side by side. */
  lemma FailOpenGivesUpExclusion(s: State)
    requires Initial(s) && s.failOpen
    ensures var s' := Run(s, [RedisFails(1), RedisFails(2)]);
            !Exclusive(s') && !s'.overran
  {
    RunThen(s, [], RedisFails(1));
    RunThen(s, [RedisFails(1)], RedisFails(2));
    assert [] + [RedisFails(1)] == [RedisFails(1)];
    assert [RedisFails(1)] + [RedisFails(2)] == [RedisFails(1), RedisFails(2)];
    var s' := Run(s, [RedisFails(1), RedisFails(2)]);
    assert 1 in s'.phases && 2 in s'.phases;
  }

  /** A caller that never deletes its key keeps the others out for its TTL, and no longer: after
      any events but a `DEL`, the key is this caller's, and free exactly when the TTL has passed,
      or it is a later caller's, and the TTL has passed. */
  lemma {:induction false} KeyLastsItsTtl(s: State, p: Pid, es: seq<Event>)
    requires s.ttl > 0 && PhaseOf(s, p).Out? && KeyFree(s) && forall e <- es :: !e.DelLands?
    ensures var end, u := s.now + s.ttl, Run(Apply(s, TryLock(p)), es);
            && u.ttl == s.ttl && u.key.Some?
            && ((u.key.value == end && (KeyFree(u) <==> u.now >= end)) || (u.key.value > end && u.now >= end))
    decreases |es|
  {
    if es == [] {
    } else {
      var n := |es| - 1;
      KeyLastsItsTtl(s, p, es[..n]);
      KeyStep(Run(Apply(s, TryLock(p)), es[..n]), es[n]);
    }
  }

  lemma KeyStep(s: State, e: Event)
    requires !e.DelLands?
    ensures var t := Apply(s, e);
            && t.ttl == s.ttl && t.now >= s.now
            && (t.key != s.key ==> t.key == Some(s.now + s.ttl) && t.now == s.now && KeyFree(s))
  {
  }

  /** The next caller gets in as soon as the `DEL` has landed; if it was lost, when the TTL is over. */
  lemma NextGetsIn(s: State, p: Pid, q: Pid, deleted: bool, elapsed: nat)
    requires s.ttl > 0 && p != q && PhaseOf(s, p).Out? && PhaseOf(s, q).Out? && KeyFree(s)
    ensures var del := if deleted then DelLands(p) else DelFails(p);
            var t := Run(s, [TryLock(p)] + [Return(p)] + [del] + [Tick(elapsed)]);
            PhaseOf(Apply(t, TryLock(q)), q).Inside? <==> deleted || elapsed >= s.ttl
  {
    var del := if deleted then DelLands(p) else DelFails(p);
    RunThen(s, [TryLock(p)] + [Return(p)] + [del], Tick(elapsed));
    RunThen(s, [TryLock(p)] + [Return(p)], del);
    RunThen(s, [TryLock(p)], Return(p));
    RunThen(s, [], TryLock(p));
    assert [] + [TryLock(p)] == [TryLock(p)];
    hide Run;
  }
}
