/** Delivery of one queued chat message: `deliverOne` with every write that can fail, and the
    chain of queue jobs that its soft retries make. */
module ChatNotify {
  import opened Wrappers

  const MAX_SOFT_RETRIES: nat := 3

  datatype Status = Queued | Delivered | Failed | Dropped

  datatype Row = Row(status: Status, attempt: nat)

  /** What the adapter call comes to. `posted` is whether the message reached the channel. */
  datatype Outcome =
    | BadConfig
    | Accepted
    | Retryable(posted: bool)
    | Refused(posted: bool)

  /** Where the process dies: before the adapter call, right after it, or right after the write to
      the delivery row. */
  datatype Death = Lives | BeforeCall | AfterCall | AfterWrite

  /** One execution of the queue job: what the outside answers, which of its writes fail, and
      whether and where the process dies. */
  datatype Env = Env(
    active: bool, outcome: Outcome, death: Death,
    readFails: bool, dropFails: bool, deliveredFails: bool, successFails: bool,
    failedFails: bool, failureFails: bool, addFails: bool)

  /** `live` is the attempt number of the one job in the queue, `dead` that of a job whose process
      has died; `posts` and `calls` are history. */
  datatype State = State(row: Option<Row>, live: Option<nat>, dead: Option<nat>, posts: nat, calls: nat)

  /** `Rerun`: the queue finds the dead job stalled and puts it back. */
  datatype Event = Job(env: Env) | Rerun | DeleteRow

  function Posts(o: Outcome): nat {
    match o
    case BadConfig => 0
    case Accepted => 1
    case Retryable(posted) => if posted then 1 else 0
    case Refused(posted) => if posted then 1 else 0
  }

  /** The `catch` branch: note the failure, and queue the next attempt when the error says so. */
  function Catch(s: State, attempt: nat, retryable: bool, env: Env): State {
    var again := retryable && attempt + 1 < MAX_SOFT_RETRIES;
    if env.failedFails then s
    else
      var t := s.(row := Some(Row(if again then Queued else Failed, attempt + 1)));
      if env.death.AfterWrite? then t.(dead := Some(attempt))
      else if again && !env.failureFails && !env.addFails then t.(live := Some(attempt + 1))
      else t
  }

  function AfterAccepted(u: State, attempt: nat, env: Env): State {
    if env.deliveredFails then Catch(u, attempt, false, env)
    else
      var d := u.(row := Some(Row(Delivered, attempt + 1)));
      if env.death.AfterWrite? then d.(dead := Some(attempt))
      else if env.successFails then Catch(d, attempt, false, env)
      else d
  }

  /** One execution of `deliverOne` for the live job. */
  function Deliver(s: State, env: Env): State {
    if s.live.None? then s
    else
      var attempt, t := s.live.value, s.(live := None);
      if env.death.BeforeCall? then t.(dead := Some(attempt))
      else if env.readFails || s.row.None? || s.row.value.status.Delivered? then t
      else if !env.active then
        if env.dropFails then t
        else
          var d := t.(row := Some(s.row.value.(status := Dropped)));
          if env.death.AfterWrite? then d.(dead := Some(attempt)) else d
      else if env.outcome.BadConfig? then Catch(t, attempt, false, env)
      else
        var u := t.(calls := t.calls + 1, posts := t.posts + Posts(env.outcome));
        if env.death.AfterCall? then u.(dead := Some(attempt))
        else if env.outcome.Accepted? then AfterAccepted(u, attempt, env)
        else Catch(u, attempt, env.outcome.Retryable?, env)
  }

  function Apply(s: State, e: Event): State {
    match e
    case Job(env) => Deliver(s, env)
    case Rerun => if s.dead.Some? && s.live.None? then s.(live := s.dead, dead := None) else s
    case DeleteRow => s.(row := None)
  }

  function Run(s: State, es: seq<Event>): State
    decreases |es|
  {
    if es == [] then s else Apply(Run(s, es[..|es| - 1]), es[|es| - 1])
  }

  predicate Initial(s: State) { s == State(Some(Row(Queued, 0)), Some(0), None, 0, 0) }

  /** The contract of the adapters: a retryable error means that nothing was posted. */
  predicate Honest(e: Event) { e.Job? ==> e.env.outcome.Retryable? ==> !e.env.outcome.posted }

  ghost predicate AllHonest(es: seq<Event>) { forall i :: 0 <= i < |es| ==> Honest(es[i]) }

  predicate Undelivered(row: Option<Row>) { row.Some? && !row.value.status.Delivered? }

  predicate Reruns(s: State, e: Event) { e.Rerun? && s.dead.Some? && s.live.None? }

  /** A job is put back although the message was posted: its row does not say so. */
  predicate Repeats(s: State, e: Event) { Reruns(s, e) && s.posts > 0 && Undelivered(s.row) }

  function RerunsOf(s: State, es: seq<Event>): nat
    decreases |es|
  {
    if es == [] then 0
    else RerunsOf(s, es[..|es| - 1]) + if Reruns(Run(s, es[..|es| - 1]), es[|es| - 1]) then 1 else 0
  }

  function RepeatsOf(s: State, es: seq<Event>): nat
    decreases |es|
  {
    if es == [] then 0
    else RepeatsOf(s, es[..|es| - 1]) + if Repeats(Run(s, es[..|es| - 1]), es[|es| - 1]) then 1 else 0
  }

  /** A job in the queue that would call the adapter has as many posts behind it as there were
      repeats, and its attempt number counts the calls but for the reruns. */
  ghost predicate Inv(s: State, repeats: nat, reruns: nat) {
    && (s.live.Some? ==> s.dead.None? && s.calls <= s.live.value + reruns && s.live.value < MAX_SOFT_RETRIES)
    && (s.live.Some? && Undelivered(s.row) ==> s.posts <= repeats)
    && (s.dead.Some? ==> s.calls <= s.dead.value + 1 + reruns && s.dead.value < MAX_SOFT_RETRIES)
    && s.posts <= 1 + repeats && s.posts <= s.calls <= MAX_SOFT_RETRIES + reruns
    && (s.row.Some? && s.row.value.status.Delivered? ==> s.posts > 0)
  }

  lemma ApplyKeepsInv(s: State, e: Event, repeats: nat, reruns: nat)
    requires Inv(s, repeats, reruns) && Honest(e)
    ensures Inv(Apply(s, e), repeats + (if Repeats(s, e) then 1 else 0), reruns + if Reruns(s, e) then 1 else 0)
  {
  }

  /** In every run, whichever of its writes fail and wherever it dies, the message is posted at most
      once, and once more for each time a job is put back with the message posted and its row not
      saying so; the adapter is called at most `MAX_SOFT_RETRIES` times, and once more for each
      time a job is put back at all. A row that says delivered tells the truth. */
  lemma {:induction false} AtMostOnePost(s: State, es: seq<Event>)
    requires Initial(s) && AllHonest(es)
    ensures var t := Run(s, es);
            && t.posts <= 1 + RepeatsOf(s, es)
            && t.calls <= MAX_SOFT_RETRIES + RerunsOf(s, es)
            && (t.row.Some? && t.row.value.status.Delivered? ==> t.posts > 0)
    ensures Inv(Run(s, es), RepeatsOf(s, es), RerunsOf(s, es))
    decreases |es|
  {
    hide Apply, Repeats, Reruns, Honest;
    if es == [] {
    } else {
      AtMostOnePost(s, es[..|es| - 1]);
      ApplyKeepsInv(Run(s, es[..|es| - 1]), es[|es| - 1], RepeatsOf(s, es[..|es| - 1]), RerunsOf(s, es[..|es| - 1]));
    }
  }

  /** A job that is put back and accepted posts again if and only if its row does not say delivered:
      so once more after a death between the post and the write that follows it. */
  lemma RerunPostsAgainIff(s: State, env: Env)
    requires s.dead.Some? && s.live.None?
    requires env.active && env.outcome.Accepted? && env.death.Lives? && !env.readFails
    ensures Deliver(Apply(s, Rerun), env).posts == s.posts + (if Undelivered(s.row) then 1 else 0)
  {
  }

  const ACCEPTED := Env(true, Accepted, Lives, false, false, false, false, false, false, false)

  /** A run that posts twice: the process dies after the post, and the job is put back. */
  lemma RerunPostsTwice(s: State)
    requires Initial(s)
    ensures var es := [Job(ACCEPTED.(death := AfterCall)), Rerun, Job(ACCEPTED)];
            AllHonest(es) && Run(s, es).posts == 2 && RepeatsOf(s, es) == 1
  {
    var e1, e2, e3 := Job(ACCEPTED.(death := AfterCall)), Rerun, Job(ACCEPTED);
    var es := [e1, e2, e3];
    assert es[..2] == [e1, e2] && [e1, e2][..1] == [e1] && [e1][..0] == [];
    assert Run(s, [e1]) == Apply(Run(s, []), e1) && Run(s, [e1, e2]) == Apply(Run(s, [e1]), e2);
    assert RepeatsOf(s, [e1]) == RepeatsOf(s, []) + if Repeats(s, e1) then 1 else 0;
    assert RepeatsOf(s, [e1, e2]) == RepeatsOf(s, [e1]) + if Repeats(Run(s, [e1]), e2) then 1 else 0;
  }

  /** A posted message is marked delivered if and only if the process outlives the post, the write
      after it succeeds, and so does the note on the destination, unless the process is dead by
      then or the note's own failure cannot be noted. In particular a failing note turns a
      delivered row into a failed one. */
  lemma PostedIsMarkedIff(s: State, env: Env)
    requires s.live.Some? && Undelivered(s.row)
    requires !env.readFails && env.active && env.outcome.Accepted? && !env.death.BeforeCall?
    ensures Deliver(s, env).posts == s.posts + 1
    ensures var r := Deliver(s, env).row;
            && (r.value.status.Delivered?
                <==> !env.death.AfterCall? && !env.deliveredFails
                     && (!env.successFails || env.failedFails || env.death.AfterWrite?))
            && (env.successFails && env.death.Lives? && !env.failedFails ==> r.value.status.Failed?)
  {
  }

  /** Nothing goes wrong but the adapter. */
  predicate Smooth(env: Env) {
    && env.death.Lives?
    && !env.readFails && !env.dropFails && !env.deliveredFails && !env.successFails
    && !env.failedFails && !env.failureFails && !env.addFails
  }

  /** The `i`-th job is the last: no destination, an answer that is final, or no retry left. */
  predicate Settles(env: Env, i: nat) { !env.active || !env.outcome.Retryable? || i + 1 >= MAX_SOFT_RETRIES }

  function Jobs(envs: seq<Env>): seq<Event> { seq(|envs|, i requires 0 <= i < |envs| => Job(envs[i])) }

  /** The first job that settles the delivery. */
  ghost predicate SettledBy(envs: seq<Env>, i: nat) {
    i < |envs| && Settles(envs[i], i) && forall j :: 0 <= j < i ==> !Settles(envs[j], j)
  }

  function Ending(env: Env, i: nat): Row {
    if !env.active then Row(Dropped, i)
    else if env.outcome.Accepted? then Row(Delivered, i + 1)
    else Row(Failed, i + 1)
  }

  lemma SmoothJob(s: State, env: Env, i: nat)
    requires s.row == Some(Row(Queued, i)) && s.live == Some(i) && Smooth(env)
    ensures var t := Deliver(s, env);
            if Settles(env, i) then t.live.None? && t.row == Some(Ending(env, i))
            else t.live == Some(i + 1) && t.row == Some(Row(Queued, i + 1))
  {
  }

  lemma JobsAfter(s: State, envs: seq<Env>, env: Env)
    ensures Run(s, Jobs(envs + [env])) == Deliver(Run(s, Jobs(envs)), env)
  {
    assert Jobs(envs + [env]) == Jobs(envs) + [Job(env)];
    assert (Jobs(envs) + [Job(env)])[..|envs|] == Jobs(envs);
  }

  /** How a delivery ends when only the adapter fails: with the first job that settles it - dropped
      without a destination, delivered if accepted, failed otherwise - and queued until then, with
      the next attempt in the queue. */
  lemma {:induction false} DeliveryEnds(s: State, envs: seq<Env>)
    requires Initial(s) && forall env <- envs :: Smooth(env)
    ensures var t := Run(s, Jobs(envs));
            && (forall i: nat :: SettledBy(envs, i) ==> t.live.None? && t.row == Some(Ending(envs[i], i)))
            && ((forall i :: 0 <= i < |envs| ==> !Settles(envs[i], i))
                ==> t.row == Some(Row(Queued, |envs|)) && t.live == Some(|envs|))
    decreases |envs|
  {
    hide Run, Jobs, Deliver, Settles, SettledBy, Ending, Smooth;
    if envs == [] {
      NoJobs(s);
    } else {
      var n := |envs| - 1;
      DeliveryEnds(s, envs[..n]);
      assert envs == envs[..n] + [envs[n]];
      JobsAfter(s, envs[..n], envs[n]);
      OneMoreJob(Run(s, Jobs(envs[..n])), envs, n);
    }
  }

  lemma NoJobs(s: State)
    requires Initial(s)
    ensures Run(s, Jobs([])) == s && forall i: nat :: !SettledBy([], i)
  {
  }

  lemma OneMoreJob(t: State, envs: seq<Env>, n: nat)
    requires |envs| == n + 1 && Smooth(envs[n])
    requires forall i: nat :: SettledBy(envs[..n], i) ==> t.live.None? && t.row == Some(Ending(envs[..n][i], i))
    requires (forall i :: 0 <= i < n ==> !Settles(envs[..n][i], i))
             ==> t.row == Some(Row(Queued, n)) && t.live == Some(n)
    ensures var u := Deliver(t, envs[n]);
            && (forall i: nat :: SettledBy(envs, i) ==> u.live.None? && u.row == Some(Ending(envs[i], i)))
            && ((forall i :: 0 <= i <= n ==> !Settles(envs[i], i))
                ==> u.row == Some(Row(Queued, n + 1)) && u.live == Some(n + 1))
  {
    hide Deliver, Settles, Ending, Smooth;
    if i: nat :| i < n && SettledBy(envs, i) {
      assert SettledBy(envs[..n], i);
      NothingLive(t, envs[n]);
    } else {
      UnsettledBefore(envs, n);
      SmoothJob(t, envs[n], n);
    }
  }

  lemma NothingLive(s: State, env: Env)
    requires s.live.None?
    ensures Deliver(s, env) == s
  {
  }

  /** If no job before `n` is the first to settle, none settles. */
  lemma {:induction false} UnsettledBefore(envs: seq<Env>, n: nat)
    requires n <= |envs| && forall i: nat :: i < n ==> !SettledBy(envs, i)
    ensures forall i :: 0 <= i < n ==> !Settles(envs[i], i)
  {
    hide Settles;
    if n == 0 {
    } else {
      UnsettledBefore(envs, n - 1);
      assert !SettledBy(envs, n - 1);
    }
  }

  /** The contract is needed: an adapter that calls a posted message retryable posts it twice. */
  lemma DishonestAdapterPostsTwice(s: State, env: Env)
    requires Initial(s) && env == ACCEPTED.(outcome := Retryable(true))
    ensures Run(s, [Job(env), Job(env)]).posts == 2
    ensures RerunsOf(s, [Job(env), Job(env)]) == 0
  {
    var es := [Job(env), Job(env)];
    assert es[..1] == [Job(env)];
    assert es[..1][..0] == [];
    assert Run(s, es[..1]) == Apply(Run(s, []), Job(env));
    assert RerunsOf(s, es[..1]) == 0;
  }

  class Delivery {
    var row: Option<Row>
    var live: Option<nat>
    var dead: Option<nat>
    ghost var posts: nat
    ghost var calls: nat

    ghost function Contents(): State
      reads this
    {
      State(row, live, dead, posts, calls)
    }

    constructor ()
      ensures Initial(Contents())
    {
      row, live, dead, posts, calls := Some(Row(Queued, 0)), Some(0), None, 0, 0;
    }

    method HandleError(attempt: nat, retryable: bool, env: Env)
      modifies this
      ensures Contents() == Catch(old(Contents()), attempt, retryable, env)
    {
      var again := retryable && attempt + 1 < MAX_SOFT_RETRIES;
      if env.failedFails {
        return;
      }
      row := Some(Row(if again then Queued else Failed, attempt + 1));
      if env.death.AfterWrite? {
        dead := Some(attempt);
        return;
      }
      if env.failureFails || !again || env.addFails {
        return;
      }
      live := Some(attempt + 1);
    }

    /** The job taken off the queue, and `deliverOne` run on it. */
    method DeliverOne(env: Env)
      modifies this
      ensures Contents() == Deliver(old(Contents()), env)
    {
      if live.None? {
        return;
      }
      var attempt := live.value;
      live := None;
      if env.death.BeforeCall? {
        dead := Some(attempt);
        return;
      }
      if env.readFails || row.None? || row.value.status.Delivered? {
        return;
      }
      if !env.active {
        if !env.dropFails {
          row := Some(row.value.(status := Dropped));
          if env.death.AfterWrite? {
            dead := Some(attempt);
          }
        }
        return;
      }
      if env.outcome.BadConfig? {
        HandleError(attempt, false, env);
        return;
      }
      calls, posts := calls + 1, posts + Posts(env.outcome);
      if env.death.AfterCall? {
        dead := Some(attempt);
        return;
      }
      if env.outcome.Accepted? {
        if env.deliveredFails {
          HandleError(attempt, false, env);
          return;
        }
        row := Some(Row(Delivered, attempt + 1));
        if env.death.AfterWrite? {
          dead := Some(attempt);
        } else if env.successFails {
          HandleError(attempt, false, env);
        }
      } else {
        HandleError(attempt, env.outcome.Retryable?, env);
      }
    }
  }
}
