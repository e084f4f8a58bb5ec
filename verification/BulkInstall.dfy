/** The bulk install: a fixed number of workers that shift hosts off one shared queue, between
    awaits nothing interrupts. */
module BulkInstall {
  import opened Numbers

  type Host = int

  datatype Result = Result(host: Host, ok: bool)

  /** Where a worker is: at the head of its loop, waiting for a host's installer (`retried`: with
      the fallback account), waiting for the disposal of a host's certificate after its result was
      noted, or returned. */
  datatype Phase = Ready | Busy(host: Host, retried: bool) | Closing(host: Host) | Returned

  /** `started` is history: the hosts in the order in which `server-start` was sent for them. */
  datatype State = State(queue: seq<Host>, aborted: bool, workers: seq<Phase>, results: seq<Result>, started: seq<Host>)

  /** `Refused`: the host fails before any installer runs. `Installed`: an installer run ends;
      `canRetry` is whether a failure of the host's own identity leaves a fallback to try. `closes`
      is whether the host used a certificate, whose disposal is awaited. */
  datatype Event =
    | LoopHead(k: nat)
    | Refused(k: nat, closes: bool)
    | Installed(k: nat, ok: bool, canRetry: bool, closes: bool)
    | Disposed(k: nat)
    | ClientGone

  /** The pool as it is set up for `targets`. */
  function Opened(targets: seq<Host>, concurrency: nat): State {
    State(targets, false, seq(Least(concurrency, |targets|), _ => Ready), [], [])
  }

  /** `results.push`, then the `finally` block. */
  function Note(s: State, k: nat, ok: bool, closes: bool): State
    requires k < |s.workers| && s.workers[k].Busy?
  {
    var host := s.workers[k].host;
    s.(results := s.results + [Result(host, ok)], workers := s.workers[k := if closes then Closing(host) else Ready])
  }

  function Apply(s: State, e: Event): State {
    match e
    case ClientGone => s.(aborted := true)
    case LoopHead(k) =>
      if k >= |s.workers| || !s.workers[k].Ready? then s
      else if s.queue != [] && !s.aborted then
        s.(queue := s.queue[1..], workers := s.workers[k := Busy(s.queue[0], false)],
           started := s.started + [s.queue[0]])
      else s.(workers := s.workers[k := Returned])
    case Refused(k, closes) =>
      if k >= |s.workers| || !s.workers[k].Busy? || s.workers[k].retried then s else Note(s, k, false, closes)
    case Installed(k, ok, canRetry, closes) =>
      if k >= |s.workers| || !s.workers[k].Busy? then s
      else if ok || s.workers[k].retried || !canRetry then Note(s, k, ok, closes)
      else s.(workers := s.workers[k := Busy(s.workers[k].host, true)])
    case Disposed(k) =>
      if k >= |s.workers| || !s.workers[k].Closing? then s else s.(workers := s.workers[k := Ready])
  }

  function Run(s: State, es: seq<Event>): State
    decreases |es|
  {
    if es == [] then s else Apply(Run(s, es[..|es| - 1]), es[|es| - 1])
  }

  // ---------------------------------------------------------------- what every step keeps

  function Held(p: Phase): multiset<Host> { if p.Busy? then multiset{p.host} else multiset{} }

  /** The hosts whose installer has been started and has no result yet. */
  function InFlight(workers: seq<Phase>): (m: multiset<Host>)
    ensures |m| <= |workers|
  {
    if workers == [] then multiset{}
    else Held(workers[0]) + InFlight(workers[1..])
  }

  function Noted(results: seq<Result>): multiset<Host> {
    if results == [] then multiset{} else Noted(results[..|results| - 1]) + multiset{results[|results| - 1].host}
  }

  lemma Swap(m: multiset<Host>, a: multiset<Host>, b: multiset<Host>, c: multiset<Host>, d: multiset<Host>)
    requires a + b == c + d
    ensures (m + a) + b == (m + c) + d
  {
    assert (m + a) + b == m + (a + b);
  }

  lemma Cancel(a: multiset<Host>, b: multiset<Host>, c: multiset<Host>)
    requires a + c == b + c
    ensures a == b
  {
    assert a == (a + c) - c && b == (b + c) - c;
  }

  lemma {:induction false} InFlightAfter(workers: seq<Phase>, k: nat, p: Phase)
    requires k < |workers|
    ensures InFlight(workers[k := p]) + Held(workers[k]) == InFlight(workers) + Held(p)
  {
    if k > 0 {
      var rest := workers[1..];
      InFlightAfter(rest, k - 1, p);
      assert workers[k := p][1..] == rest[k - 1 := p];
      Swap(Held(workers[0]), InFlight(rest[k - 1 := p]), Held(workers[k]), InFlight(rest), Held(p));
    } else {
      assert workers[k := p][1..] == workers[1..];
    }
  }

  lemma NotedAfter(results: seq<Result>, r: Result)
    ensures Noted(results + [r]) == Noted(results) + multiset{r.host}
  {
    assert (results + [r])[..|results + [r]| - 1] == results;
  }

  /** No host is lost or made up: what was started is what has a result and what is in flight, and
      what was started and what waits are the targets, in their order. */
  ghost predicate Inv(s: State, targets: seq<Host>) {
    && s.started + s.queue == targets
    && multiset(s.started) == Noted(s.results) + InFlight(s.workers)
    && (forall k :: 0 <= k < |s.workers| && s.workers[k].Returned? ==> s.aborted || s.queue == [])
  }

  lemma NoteKeepsInv(s: State, k: nat, ok: bool, closes: bool, targets: seq<Host>)
    requires Inv(s, targets) && k < |s.workers| && s.workers[k].Busy?
    ensures Inv(Note(s, k, ok, closes), targets)
  {
    hide InFlight, Noted;
    var host := s.workers[k].host;
    NotedAfter(s.results, Result(host, ok));
    InFlightAfter(s.workers, k, if closes then Closing(host) else Ready);
    var after := Note(s, k, ok, closes);
    Swap(Noted(s.results), InFlight(after.workers), multiset{host}, InFlight(s.workers), multiset{});
    assert Noted(after.results) + InFlight(after.workers)
      == Noted(s.results) + InFlight(after.workers) + multiset{host};
  }

  lemma StartKeepsInv(s: State, k: nat, targets: seq<Host>)
    requires Inv(s, targets) && k < |s.workers| && s.workers[k].Ready?
    ensures Inv(Apply(s, LoopHead(k)), targets)
  {
    hide InFlight, Noted;
    var after := Apply(s, LoopHead(k));
    if s.queue != [] && !s.aborted {
      var host := s.queue[0];
      InFlightAfter(s.workers, k, Busy(host, false));
      Swap(Noted(s.results), InFlight(after.workers), multiset{}, InFlight(s.workers), multiset{host});
      assert s.started + [host] + s.queue[1..] == s.started + s.queue;
    } else {
      InFlightAfter(s.workers, k, Returned);
      Cancel(InFlight(after.workers), InFlight(s.workers), multiset{});
    }
  }

  lemma ApplyKeepsInv(s: State, e: Event, targets: seq<Host>)
    requires Inv(s, targets)
    ensures Inv(Apply(s, e), targets) && |Apply(s, e).workers| == |s.workers|
  {
    hide InFlight, Noted;
    match e
    case ClientGone =>
    case LoopHead(k) =>
      if k < |s.workers| && s.workers[k].Ready? {
        StartKeepsInv(s, k, targets);
      }
    case Refused(k, closes) =>
      if k < |s.workers| && s.workers[k].Busy? {
        NoteKeepsInv(s, k, false, closes, targets);
      }
    case Installed(k, ok, _, closes) =>
      if k < |s.workers| && s.workers[k].Busy? {
        NoteKeepsInv(s, k, ok, closes, targets);
        InFlightAfter(s.workers, k, Busy(s.workers[k].host, true));
        Cancel(InFlight(s.workers[k := Busy(s.workers[k].host, true)]), InFlight(s.workers), Held(s.workers[k]));
      }
    case Disposed(k) =>
      if k < |s.workers| && s.workers[k].Closing? {
        InFlightAfter(s.workers, k, Ready);
        Cancel(InFlight(s.workers[k := Ready]), InFlight(s.workers), multiset{});
      }
  }

  lemma {:induction false} NoneInFlight(workers: seq<Phase>)
    requires forall k :: 0 <= k < |workers| ==> !workers[k].Busy?
    ensures InFlight(workers) == multiset{}
  {
    if workers == [] {
    } else {
      NoneInFlight(workers[1..]);
    }
  }

  lemma {:induction false} RunKeepsInv(targets: seq<Host>, concurrency: nat, es: seq<Event>)
    ensures var t := Run(Opened(targets, concurrency), es);
            Inv(t, targets) && |t.workers| == Least(concurrency, |targets|)
    decreases |es|
  {
    hide Apply;
    var s := Opened(targets, concurrency);
    if es == [] {
      NoneInFlight(s.workers);
    } else {
      RunKeepsInv(targets, concurrency, es[..|es| - 1]);
      ApplyKeepsInv(Run(s, es[..|es| - 1]), es[|es| - 1], targets);
    }
  }

  // ---------------------------------------------------------------- bounded, once, none after abort

  ghost predicate Distinct(hosts: seq<Host>) {
    forall i, j :: 0 <= i < j < |hosts| ==> hosts[i] != hosts[j]
  }

  /** In every interleaving: at most `min(concurrency, n)` hosts are in flight, the hosts started
      are a prefix of the targets - so none is started twice - and each has either its one result
      or a worker busy with it. */
  lemma BoundedAndOnce(targets: seq<Host>, concurrency: nat, es: seq<Event>)
    ensures var t := Run(Opened(targets, concurrency), es);
            && |InFlight(t.workers)| <= Least(concurrency, |targets|)
            && t.started <= targets
            && (Distinct(targets) ==> Distinct(t.started))
            && |t.results| + |InFlight(t.workers)| == |t.started|
  {
    RunKeepsInv(targets, concurrency, es);
    var t := Run(Opened(targets, concurrency), es);
    NotedCount(t.results);
    assert |multiset(t.started)| == |t.started|;
    assert forall i :: 0 <= i < |t.started| ==> t.started[i] == targets[i];
  }

  lemma {:induction false} NotedCount(results: seq<Result>)
    ensures |Noted(results)| == |results|
    decreases |results|
  {
    if results == [] {
    } else {
      NotedCount(results[..|results| - 1]);
    }
  }

  /** Once the client is gone no host is started, however the run goes on. */
  lemma {:induction false} NoneStartsAfterAbort(s: State, es: seq<Event>)
    requires s.aborted
    ensures var t := Run(s, es); t.aborted && t.started == s.started && t.queue == s.queue
    decreases |es|
  {
    if es == [] {
    } else {
      NoneStartsAfterAbort(s, es[..|es| - 1]);
    }
  }

  // ---------------------------------------------------------------- the end of a run

  /** `Promise.all(workers)` is settled. */
  ghost predicate Settled(s: State) {
    forall k :: 0 <= k < |s.workers| ==> s.workers[k].Returned?
  }

  function Count(results: seq<Result>, ok: bool): nat {
    if results == [] then 0
    else Count(results[..|results| - 1], ok) + if results[|results| - 1].ok == ok then 1 else 0
  }

  lemma {:induction false} OkAndFailed(results: seq<Result>)
    ensures Count(results, true) + Count(results, false) == |results|
    decreases |results|
  {
    if results == [] {
    } else {
      OkAndFailed(results[..|results| - 1]);
    }
  }

  /** At the end exactly the hosts that were started have a result, each one; if nobody aborted,
      these are the targets, and ok and failed add up to their number. */
  lemma OneResultPerHost(targets: seq<Host>, concurrency: nat, es: seq<Event>)
    requires concurrency > 0 && Settled(Run(Opened(targets, concurrency), es))
    ensures var t := Run(Opened(targets, concurrency), es);
            && Noted(t.results) == multiset(t.started) && t.started <= targets
            && Count(t.results, true) + Count(t.results, false) == |t.started|
            && (!t.aborted ==> t.started == targets)
  {
    RunKeepsInv(targets, concurrency, es);
    var t := Run(Opened(targets, concurrency), es);
    NoneInFlight(t.workers);
    NotedCount(t.results);
    OkAndFailed(t.results);
    assert |multiset(t.started)| == |t.started|;
    if !t.aborted && |targets| > 0 {
      assert t.workers[0].Returned?;
    }
  }

  /** A first failure with a fallback to try notes nothing and keeps the host in flight; whatever
      other workers do in between, the run with the fallback then decides, and is the last. */
  lemma {:induction false} FallbackDecides(s: State, k: nat, es: seq<Event>, ok: bool, canRetry: bool, closes: bool)
    requires k < |s.workers| && s.workers[k].Busy? && !s.workers[k].retried
    requires forall i :: 0 <= i < |es| ==> es[i].ClientGone? || es[i].k != k
    ensures var host := s.workers[k].host;
            var t := Run(Apply(s, Installed(k, false, true, closes)), es);
            && k < |t.workers| && t.workers[k] == Busy(host, true)
            && Apply(t, Installed(k, ok, canRetry, closes)).results == t.results + [Result(host, ok)]
    decreases |es|
  {
    if es == [] {
    } else {
      FallbackDecides(s, k, es[..|es| - 1], ok, canRetry, closes);
      assert es[|es| - 1].ClientGone? || es[|es| - 1].k != k;
    }
  }

  // ---------------------------------------------------------------- what a result says

  /** One try at a host: an installer run, or a failure before any. */
  datatype Try = Tried(ok: bool, canRetry: bool) | TurnedAway

  /** What `e` tries at the host. */
  function TriedBy(s: State, e: Event, host: Host): seq<Try> {
    if e.ClientGone? || e.k >= |s.workers| || !s.workers[e.k].Busy? || s.workers[e.k].host != host then []
    else
      match e
      case Refused(k, _) => if s.workers[k].retried then [] else [TurnedAway]
      case Installed(_, ok, canRetry, _) => [Tried(ok, canRetry)]
      case _ => []
  }

  /** Everything that was tried at the host, in order. */
  function Tries(s: State, es: seq<Event>, host: Host): seq<Try>
    decreases |es|
  {
    if es == [] then []
    else Tries(s, es[..|es| - 1], host) + TriedBy(Run(s, es[..|es| - 1]), es[|es| - 1], host)
  }

  const FALLBACK_NEXT := Tried(false, true)

  /** Nothing yet, or one failed run with a fallback to try. */
  predicate Unfinished(tries: seq<Try>) { tries == [] || tries == [FALLBACK_NEXT] }

  /** Turned away, or one run that ended well or left no fallback, or the fallback's run. */
  predicate Complete(tries: seq<Try>) {
    || tries == [TurnedAway]
    || (|tries| == 1 && tries[0].Tried? && tries[0] != FALLBACK_NEXT)
    || (|tries| == 2 && tries[0] == FALLBACK_NEXT && tries[1].Tried?)
  }

  predicate EndedWell(tries: seq<Try>) {
    tries != [] && tries[|tries| - 1].Tried? && tries[|tries| - 1].ok
  }

  ghost predicate BusyWith(s: State, k: int, host: Host) {
    0 <= k < |s.workers| && s.workers[k].Busy? && s.workers[k].host == host
  }

  ghost predicate HasResult(s: State, host: Host) { exists r :: r in s.results && r.host == host }

  lemma BusyInFlight(workers: seq<Phase>, k: nat)
    requires k < |workers| && workers[k].Busy?
    ensures InFlight(workers) == InFlight(workers[k := Ready]) + multiset{workers[k].host}
  {
    InFlightAfter(workers, k, Ready);
  }

  lemma {:induction false} NotedHas(results: seq<Result>, r: Result)
    requires r in results
    ensures r.host in Noted(results)
    decreases |results|
  {
    var n := |results| - 1;
    if r != results[n] {
      assert r in results[..n];
      NotedHas(results[..n], r);
    }
  }

  lemma {:induction false} OnceIfDistinct(hosts: seq<Host>, host: Host)
    requires Distinct(hosts)
    ensures multiset(hosts)[host] <= 1
    decreases |hosts|
  {
    if hosts == [] {
    } else {
      var n := |hosts| - 1;
      OnceIfDistinct(hosts[..n], host);
      assert hosts == hosts[..n] + [hosts[n]];
      if hosts[n] == host {
        assert host !in hosts[..n];
      }
    }
  }

  /** A host a worker is busy with is nowhere else. */
  lemma OnePlace(s: State, targets: seq<Host>, k: nat, host: Host)
    requires Inv(s, targets) && Distinct(targets) && BusyWith(s, k, host)
    ensures forall j :: BusyWith(s, j, host) ==> j == k
    ensures !HasResult(s, host) && host !in s.queue
  {
    hide InFlight, Noted;
    BusyInFlight(s.workers, k);
    assert forall i :: 0 <= i < |s.started| ==> s.started[i] == targets[i];
    OnceIfDistinct(s.started, host);
    if j :| BusyWith(s, j, host) && j != k {
      BusyInFlight(s.workers[k := Ready], j);
    }
    if r :| r in s.results && r.host == host {
      NotedHas(s.results, r);
    }
    assert host in multiset(s.started);
    Apart(s.started, s.queue);
  }

  lemma Apart(a: seq<Host>, b: seq<Host>)
    requires Distinct(a + b)
    ensures forall host :: host in a ==> host !in b
  {
    forall i, j | 0 <= i < |a| && 0 <= j < |b| ensures a[i] != b[j] {
      assert (a + b)[i] == a[i] && (a + b)[|a| + j] == b[j];
    }
  }

  /** How what was tried at a host shows in the pool. */
  ghost predicate Shows(s: State, host: Host, tries: seq<Try>) {
    && (Unfinished(tries) || Complete(tries))
    && (forall r :: r in s.results && r.host == host ==> Complete(tries) && r.ok == EndedWell(tries))
    && (Complete(tries) ==> HasResult(s, host))
    && (host in s.queue ==> tries == [])
    && (forall k :: BusyWith(s, k, host) ==> tries == if s.workers[k].retried then [FALLBACK_NEXT] else [])
  }

  /** A step that touches neither the results, nor who is busy with the host. */
  lemma ElsewhereShows(s: State, t: State, host: Host, tries: seq<Try>)
    requires Shows(s, host, tries)
    requires forall r: Result :: r.host == host ==> (r in t.results <==> r in s.results)
    requires host in t.queue ==> host in s.queue
    requires forall k :: BusyWith(t, k, host) ==> BusyWith(s, k, host) && t.workers[k] == s.workers[k]
    ensures Shows(t, host, tries)
  {
    hide Complete, Unfinished, EndedWell;
    if HasResult(s, host) {
      var r :| r in s.results && r.host == host;
      assert r in t.results;
    }
  }

  lemma NoteShows(s: State, k: nat, ok: bool, closes: bool, targets: seq<Host>, host: Host, tries: seq<Try>, last: Try)
    requires Inv(s, targets) && Distinct(targets) && BusyWith(s, k, host) && Shows(s, host, tries)
    requires last == TurnedAway ==> !s.workers[k].retried && !ok
    requires last.Tried? ==> last.ok == ok && (ok || s.workers[k].retried || !last.canRetry)
    ensures Shows(Note(s, k, ok, closes), host, tries + [last])
  {
    hide Inv;
    OnePlace(s, targets, k, host);
    var t := Note(s, k, ok, closes);
    assert Complete(tries + [last]) && EndedWell(tries + [last]) == ok;
    hide Complete, EndedWell;
    assert Result(host, ok) in t.results;
    assert forall j :: BusyWith(t, j, host) ==> j != k && BusyWith(s, j, host);
  }

  lemma FallbackShows(s: State, k: nat, closes: bool, targets: seq<Host>, host: Host, tries: seq<Try>)
    requires Inv(s, targets) && Distinct(targets) && BusyWith(s, k, host) && Shows(s, host, tries)
    requires !s.workers[k].retried
    ensures Shows(Apply(s, Installed(k, false, true, closes)), host, tries + [FALLBACK_NEXT])
  {
    hide Inv;
    OnePlace(s, targets, k, host);
    var t := Apply(s, Installed(k, false, true, closes));
    assert tries == [] && !Complete([FALLBACK_NEXT]);
    hide Complete, EndedWell;
    assert forall j :: BusyWith(t, j, host) && j != k ==> BusyWith(s, j, host);
  }

  lemma BusyShows(s: State, e: Event, targets: seq<Host>, host: Host, tries: seq<Try>)
    requires Inv(s, targets) && Distinct(targets) && Shows(s, host, tries)
    requires !e.ClientGone? && BusyWith(s, e.k, host)
    ensures Shows(Apply(s, e), host, tries + TriedBy(s, e, host))
  {
    hide Inv, Shows, Distinct, Note, Complete, EndedWell;
    assert tries + [] == tries;
    match e
    case Refused(k, closes) =>
      if !s.workers[k].retried {
        NoteShows(s, k, false, closes, targets, host, tries, TurnedAway);
      }
    case Installed(k, ok, canRetry, closes) =>
      if ok || s.workers[k].retried || !canRetry {
        NoteShows(s, k, ok, closes, targets, host, tries, Tried(ok, canRetry));
      } else {
        FallbackShows(s, k, closes, targets, host, tries);
      }
    case _ =>
  }

  lemma TakenShows(s: State, k: nat, host: Host, tries: seq<Try>)
    requires k < |s.workers| && s.workers[k].Ready? && s.queue != [] && !s.aborted && s.queue[0] == host
    requires Shows(s, host, tries)
    ensures Shows(Apply(s, LoopHead(k)), host, tries)
  {
    var t := Apply(s, LoopHead(k));
    assert tries == [] && !Complete(tries);
    hide Complete, EndedWell;
    forall j | BusyWith(t, j, host) ensures !t.workers[j].retried {
      if j != k {
        assert BusyWith(s, j, host);
      }
    }
  }

  lemma ApplyShows(s: State, e: Event, targets: seq<Host>, host: Host, tries: seq<Try>)
    requires Inv(s, targets) && Distinct(targets) && Shows(s, host, tries)
    ensures Shows(Apply(s, e), host, tries + TriedBy(s, e, host))
  {
    hide Inv, Shows, Distinct;
    var t := Apply(s, e);
    if !e.ClientGone? && BusyWith(s, e.k, host) {
      BusyShows(s, e, targets, host, tries);
    } else {
      assert tries + TriedBy(s, e, host) == tries;
      var starts := e.LoopHead? && e.k < |s.workers| && s.workers[e.k].Ready? && s.queue != [] && !s.aborted;
      if starts && s.queue[0] == host {
        TakenShows(s, e.k, host, tries);
      } else {
        ElsewhereShows(s, t, host, tries);
      }
    }
  }

  lemma {:induction false} RunShows(targets: seq<Host>, concurrency: nat, es: seq<Event>, host: Host)
    requires Distinct(targets)
    ensures var s := Opened(targets, concurrency); Shows(Run(s, es), host, Tries(s, es, host))
    decreases |es|
  {
    hide Shows, Apply, Distinct, TriedBy, Inv;
    var s := Opened(targets, concurrency);
    if es == [] {
      OpenedShows(targets, concurrency, host);
    } else {
      var n := |es| - 1;
      RunShows(targets, concurrency, es[..n], host);
      RunKeepsInv(targets, concurrency, es[..n]);
      ApplyShows(Run(s, es[..n]), es[n], targets, host, Tries(s, es[..n], host));
    }
  }

  lemma OpenedShows(targets: seq<Host>, concurrency: nat, host: Host)
    ensures Shows(Opened(targets, concurrency), host, [])
  {
  }

  /** In every run, whatever is tried at a host is tried once, or twice if the first run failed
      with a fallback to try. It gets its result when that is complete, not before, and the result
      is ok exactly if the last try was an installer run that ended well. */
  lemma ResultIsLastTry(targets: seq<Host>, concurrency: nat, es: seq<Event>, host: Host)
    requires Distinct(targets)
    ensures var s := Opened(targets, concurrency);
            var tries := Tries(s, es, host);
            && (Unfinished(tries) || Complete(tries))
            && (Complete(tries) <==> HasResult(Run(s, es), host))
            && forall r :: r in Run(s, es).results && r.host == host ==> r.ok == EndedWell(tries)
  {
    RunShows(targets, concurrency, es, host);
  }

  ghost function OkHosts(results: seq<Result>): set<Host> { set r | r in results && r.ok :: r.host }

  lemma OkHostsAfter(results: seq<Result>, last: Result)
    ensures OkHosts(results + [last]) == OkHosts(results) + if last.ok then {last.host} else {}
  {
    var after := results + [last];
    forall host | host in OkHosts(results) ensures host in OkHosts(after) {
      var r :| r in results && r.ok && r.host == host;
      assert r in after;
    }
    assert last in after;
  }

  lemma {:induction false} CountsOkHosts(results: seq<Result>)
    requires forall host :: Noted(results)[host] <= 1
    ensures |OkHosts(results)| == Count(results, true)
    decreases |results|
  {
    if results == [] {
    } else {
      var n := |results| - 1;
      var last, before := results[n], results[..n];
      assert forall host :: Noted(before)[host] <= Noted(results)[host];
      CountsOkHosts(before);
      OkHostsAfter(before, last);
      assert results == before + [last];
      hide Noted;
      if last.host in OkHosts(before) {
        var r :| r in before && r.ok && r.host == last.host;
        NotedHas(before, r);
      }
    }
  }

  ghost function EndedWellAmong(targets: seq<Host>, s: State, es: seq<Event>): set<Host> {
    set host | host in targets && EndedWell(Tries(s, es, host))
  }

  /** The number reported as ok is the number of targets whose last try ended well. */
  lemma OkCountsLastTries(targets: seq<Host>, concurrency: nat, es: seq<Event>)
    requires Distinct(targets)
    ensures var s := Opened(targets, concurrency);
            Count(Run(s, es).results, true) == |EndedWellAmong(targets, s, es)|
  {
    hide Distinct, Run, Tries, EndedWell, Opened, InFlight;
    var s := Opened(targets, concurrency);
    var t := Run(s, es);
    RunKeepsInv(targets, concurrency, es);
    StartedOnce(t, targets);
    CountsOkHosts(t.results);
    var well := EndedWellAmong(targets, s, es);
    forall host ensures host in OkHosts(t.results) <==> host in well {
      ResultIsLastTry(targets, concurrency, es, host);
      if host in OkHosts(t.results) {
        var r :| r in t.results && r.ok && r.host == host;
        NotedHas(t.results, r);
        assert host in multiset(t.started);
        assert host in t.started + t.queue;
      } else if host in well {
        WellIsComplete(Tries(s, es, host));
      }
    }
    assert OkHosts(t.results) == well;
  }

  lemma WellIsComplete(tries: seq<Try>)
    requires EndedWell(tries) && (Unfinished(tries) || Complete(tries))
    ensures Complete(tries)
  {
  }

  lemma StartedOnce(s: State, targets: seq<Host>)
    requires Inv(s, targets) && Distinct(targets)
    ensures forall host :: Noted(s.results)[host] <= 1
  {
    assert forall i :: 0 <= i < |s.started| ==> s.started[i] == targets[i];
    forall host ensures Noted(s.results)[host] <= 1 {
      OnceIfDistinct(s.started, host);
    }
  }

  // ---------------------------------------------------------------- every run comes to an end

  function Weight(p: Phase): nat {
    match p
    case Returned => 0
    case Ready => 1
    case Closing(_) => 2
    case Busy(_, retried) => if retried then 3 else 4
  }

  function Weights(workers: seq<Phase>): nat {
    if workers == [] then 0 else Weight(workers[0]) + Weights(workers[1..])
  }

  /** What is left to do; `ClientGone` counts as one step as well. */
  function Left(s: State): nat { 4 * |s.queue| + Weights(s.workers) + if s.aborted then 0 else 1 }

  lemma {:induction false} WeightsAfter(workers: seq<Phase>, k: nat, p: Phase)
    requires k < |workers|
    ensures Weights(workers[k := p]) + Weight(workers[k]) == Weights(workers) + Weight(p)
  {
    if k > 0 {
      WeightsAfter(workers[1..], k - 1, p);
      assert workers[k := p][1..] == workers[1..][k - 1 := p];
    } else {
      assert workers[k := p][1..] == workers[1..];
    }
  }

  /** Every step that changes anything brings the end closer. */
  lemma StepsGoDown(s: State, e: Event)
    ensures Apply(s, e) == s || Left(Apply(s, e)) < Left(s)
  {
    hide Weights;
    if !e.ClientGone? && e.k < |s.workers| {
      var t, k := Apply(s, e), e.k;
      WeightsAfter(s.workers, k, t.workers[k]);
      assert t.workers == s.workers[k := t.workers[k]];
    }
  }

  /** And no state is stuck before it: a worker that has not returned has a step that moves it. */
  lemma NeverStuck(s: State, k: nat)
    requires k < |s.workers| && !s.workers[k].Returned?
    ensures var e := match s.workers[k]
                     case Ready => LoopHead(k)
                     case Busy(_, _) => Installed(k, true, false, false)
                     case _ => Disposed(k);
            Apply(s, e) != s
  {
    hide Note;
    if s.workers[k].Busy? {
      NoteMoves(s, k, true, false);
    } else if s.workers[k].Ready? {
      assert Apply(s, LoopHead(k)).workers[k] != Ready;
    } else {
      assert Apply(s, Disposed(k)).workers[k] == Ready;
    }
  }

  lemma NoteMoves(s: State, k: nat, ok: bool, closes: bool)
    requires k < |s.workers| && s.workers[k].Busy?
    ensures Note(s, k, ok, closes) != s
  {
    assert |Note(s, k, ok, closes).results| == |s.results| + 1;
  }

  // ---------------------------------------------------------------- the route's pool

  class Pool {
    var queue: seq<Host>
    var aborted: bool
    var workers: seq<Phase>
    var results: seq<Result>
    ghost var started: seq<Host>

    ghost function Contents(): State
      reads this
    {
      State(queue, aborted, workers, results, started)
    }

    constructor (targets: seq<Host>, concurrency: nat)
      ensures Contents() == Opened(targets, concurrency)
    {
      queue, aborted, results, started := targets, false, [], [];
      workers := seq(Least(concurrency, |targets|), _ => Ready);
    }

    method Push(k: nat, ok: bool, closes: bool)
      requires k < |workers| && workers[k].Busy?
      modifies this
      ensures Contents() == Note(old(Contents()), k, ok, closes)
    {
      var host := workers[k].host;
      results := results + [Result(host, ok)];
      workers := workers[k := if closes then Closing(host) else Ready];
    }

    /** What runs between two awaits: one turn of one worker, or the `close` handler. */
    method Turn(e: Event)
      modifies this
      ensures Contents() == Apply(old(Contents()), e)
    {
      if e.ClientGone? {
        aborted := true;
        return;
      }
      var k := e.k;
      if k >= |workers| {
        return;
      }
      match workers[k] {
        case Ready =>
          if e.LoopHead? {
            if |queue| > 0 && !aborted {
              var target := queue[0];
              queue := queue[1..];
              started := started + [target];
              workers := workers[k := Busy(target, false)];
            } else {
              workers := workers[k := Returned];
            }
          }
        case Busy(host, retried) =>
          if e.Refused? && !retried {
            Push(k, false, e.closes);
          } else if e.Installed? {
            if e.ok {
              Push(k, true, e.closes);
            } else if retried || !e.canRetry {
              Push(k, false, e.closes);
            } else {
              workers := workers[k := Busy(host, true)];
            }
          }
        case Closing(_) =>
          if e.Disposed? {
            workers := workers[k := Ready];
          }
        case Returned =>
      }
    }

    /** A whole run, turn by turn as the event loop schedules it, and the counts of its `done`
        event. */
    method RunPool(es: seq<Event>) returns (ok: nat, failed: nat)
      modifies this
      ensures Contents() == Run(old(Contents()), es)
      ensures ok == Count(results, true) && failed == Count(results, false)
    {
      var i := 0;
      while i < |es|
        invariant 0 <= i <= |es|
        invariant Contents() == Run(old(Contents()), es[..i])
      {
        Turn(es[i]);
        assert es[..i + 1][..i] == es[..i];
        i := i + 1;
      }
      assert es[..i] == es;
      ok, failed, i := 0, 0, 0;
      while i < |results|
        invariant 0 <= i <= |results|
        invariant ok == Count(results[..i], true) && failed == Count(results[..i], false)
      {
        assert results[..i + 1][..i] == results[..i];
        if results[i].ok {
          ok := ok + 1;
        } else {
          failed := failed + 1;
        }
        i := i + 1;
      }
      assert results[..i] == results;
    }
  }
}
